/**
 * The home page product grid (src/components/ui/ProductGrid.jsx): the catalog is shuffled
 * once, shown six products at a time as the shopper scrolls, and the grid is kept in session
 * storage so that coming back restores it instead of reshuffling.
 */
module ProductGrid {
  import opened Wrappers
  import opened Shop

  const ProductsPerPage: nat := 6
  const RestoreWindowMs: nat := 1800000
  const HomePath := "/dsghr763wdsvfht"
  const RootPath := "/"
  /** `SHOW_PRODUCTS_RANDOMLY`: the grid is always shuffled. */
  const ShowProductsRandomly := true
  const LoadError := "Failed to load products"

  function Min(a: int, b: int): int
  {
    if a <= b then a else b
  }

  // ----- shuffling -----

  /** `Math.floor(Math.random() * (i + 1))`: a position in `0..i`. */
  function PickIndex(random: real, i: nat): (j: nat)
    requires 0.0 <= random < 1.0
    ensures j <= i
  {
    (random * (i + 1) as real).Floor
  }

  predicate ValidDraws(draws: seq<real>)
  {
    forall k :: 0 <= k < |draws| ==> 0.0 <= draws[k] < 1.0
  }

  /**
   * `shuffleArray(items)`: Fisher–Yates on a copy, from the last position down, drawing from
   * `draws` in order. The result is a rearrangement of the input, which is left as it was.
   */
  method ShuffleArray<T>(items: seq<T>, draws: seq<real>) returns (shuffled: seq<T>)
    requires ValidDraws(draws) && |items| <= |draws| + 1
    ensures |shuffled| == |items|
    ensures multiset(shuffled) == multiset(items)
  {
    var a := new T[|items|](k requires 0 <= k < |items| => items[k]);
    assert a[..] == items;
    var i := a.Length - 1;
    while i > 0
      invariant -1 <= i < a.Length
      invariant multiset(a[..]) == multiset(items)
      decreases i
    {
      var j := PickIndex(draws[a.Length - 1 - i], i);
      a[i], a[j] := a[j], a[i];
      i := i - 1;
    }
    shuffled := a[..];
  }

  // ----- saved state -----

  /** The grid state kept under `product_grid_state_v2`; absent lists are `None`. */
  datatype SavedGrid = SavedGrid(
    allProducts: Option<seq<Product>>, displayedProducts: Option<seq<Product>>,
    currentPage: nat, hasMore: bool, timestamp: int, pathname: string, randomMode: bool)

  /** The session slot: nothing, text that does not parse as JSON, or a saved grid. */
  datatype Session = Empty | Corrupt | Stored(grid: SavedGrid)

  predicate IsHomePath(path: string)
  {
    path == HomePath || path == RootPath
  }

  /** The freshness test of `restoreGridState`. */
  predicate ShouldRestore(g: SavedGrid, now: int)
  {
    && now - g.timestamp < RestoreWindowMs
    && g.allProducts.Some? && g.displayedProducts.Some?
    && g.pathname == HomePath
    && g.randomMode == ShowProductsRandomly
  }

  /** The condition of the effect that saves the grid whenever it changes. */
  predicate ShouldSave(loading: bool, displayed: seq<Product>, path: string)
  {
    !loading && |displayed| > 0 && IsHomePath(path)
  }

  /** The prefix shape the grid keeps: the first `6 * page` products, or all of them. */
  predicate PagedPrefix(all: seq<Product>, displayed: seq<Product>, page: nat)
  {
    displayed == all[..Min(ProductsPerPage * page, |all|)]
  }

  function Snapshot(all: seq<Product>, displayed: seq<Product>, page: nat, hasMore: bool, now: int, path: string): SavedGrid
  {
    SavedGrid(Some(all), Some(displayed), page, hasMore, now, path, ShowProductsRandomly)
  }

  /**
   * A grid saved on the home path restores exactly while it is under 30 minutes old; one saved
   * on "/" never restores, since the test asks for the home path by name.
   */
  lemma SnapshotRestores(all: seq<Product>, displayed: seq<Product>, page: nat, hasMore: bool, savedAt: int, path: string, now: int)
    ensures ShouldRestore(Snapshot(all, displayed, page, hasMore, savedAt, path), now)
      <==> (now - savedAt < RestoreWindowMs && path == HomePath)
    ensures path == RootPath ==> !ShouldRestore(Snapshot(all, displayed, page, hasMore, savedAt, path), now)
  {
  }

  /** Growing a paged prefix by the next slice gives the paged prefix of the next page. */
  lemma NextPage(all: seq<Product>, page: nat)
    requires ProductsPerPage * page < |all|
    ensures all[..Min(ProductsPerPage * page, |all|)] + all[ProductsPerPage * page..Min(ProductsPerPage * page + ProductsPerPage, |all|)]
      == all[..Min(ProductsPerPage * (page + 1), |all|)]
  {
    var s := ProductsPerPage * page;
    var e := Min(s + ProductsPerPage, |all|);
    assert all[..s] + all[s..e] == all[..e];
  }

  class Grid {
    var allProducts: seq<Product>
    var displayedProducts: seq<Product>
    var loading: bool
    var loadingMore: bool
    var error: Option<string>
    var hasMore: bool
    var currentPage: nat
    var session: Session

    /**
     * The shown products are the first pages of the catalog. Loading keeps this shape; a
     * restored saved grid brings whatever lists it holds.
     */
    predicate Paged()
      reads this
    {
      PagedPrefix(allProducts, displayedProducts, currentPage)
    }

    /** The first render: loading, nothing shown, page 0, more to fetch. */
    constructor (session: Session)
      ensures Paged()
      ensures allProducts == [] && displayedProducts == [] && currentPage == 0
      ensures loading && !loadingMore && hasMore && error.None? && this.session == session
    {
      allProducts := [];
      displayedProducts := [];
      loading := true;
      loadingMore := false;
      error := None;
      hasMore := true;
      currentPage := 0;
      this.session := session;
    }

    /**
     * `loadInitialProducts` with what `getAllProducts` returned (`None` when it threw) and
     * the random draws for the shuffle: the first six products of the shuffled catalog.
     */
    method LoadInitial(catalog: Option<seq<Product>>, draws: seq<real>)
      requires catalog.Some? ==> ValidDraws(draws) && |catalog.value| <= |draws| + 1
      modifies this
      ensures !loading && session == Empty && loadingMore == old(loadingMore)
      ensures catalog.None? ==>
        && error == Some(LoadError)
        && allProducts == old(allProducts) && displayedProducts == old(displayedProducts)
        && currentPage == old(currentPage) && hasMore == old(hasMore)
      ensures catalog.Some? ==>
        && error.None?
        && multiset(allProducts) == multiset(catalog.value) && |allProducts| == |catalog.value|
        && displayedProducts == allProducts[..Min(ProductsPerPage, |allProducts|)]
        && currentPage == 1
        && hasMore == (|catalog.value| > ProductsPerPage)
    {
      loading := true;
      session := Empty;
      if catalog.None? {
        error := Some(LoadError);
      } else {
        var processed := ShuffleArray(catalog.value, draws);
        allProducts := processed;
        displayedProducts := processed[..Min(ProductsPerPage, |processed|)];
        currentPage := 1;
        hasMore := |processed| > ProductsPerPage;
        error := None;
      }
      loading := false;
    }

    /**
     * `loadMoreProducts`: unless a load is running or nothing more is expected, the next six
     * products are appended and the page advances; an empty slice only clears `hasMore`.
     */
    method LoadMore()
      modifies this`displayedProducts, this`currentPage, this`hasMore, this`loadingMore
      ensures loadingMore == old(loadingMore)
      ensures old(Paged()) ==> Paged()
      ensures var start := ProductsPerPage * old(currentPage);
        if old(loadingMore) || !old(hasMore) || loading then
          displayedProducts == old(displayedProducts) && currentPage == old(currentPage) && hasMore == old(hasMore)
        else if start >= |allProducts| then
          displayedProducts == old(displayedProducts) && currentPage == old(currentPage) && !hasMore
        else
          && displayedProducts == old(displayedProducts) + allProducts[start..Min(start + ProductsPerPage, |allProducts|)]
          && currentPage == old(currentPage) + 1
          && hasMore == (start + ProductsPerPage < |allProducts|)
    {
      if loadingMore || !hasMore || loading {
        return;
      }
      loadingMore := true;
      var start := currentPage * ProductsPerPage;
      var end := start + ProductsPerPage;
      var newProducts := allProducts[Min(start, |allProducts|)..Min(end, |allProducts|)];
      if |newProducts| == 0 {
        hasMore := false;
        loadingMore := false;
        return;
      }
      NextPage(allProducts, currentPage);
      displayedProducts := displayedProducts + newProducts;
      currentPage := currentPage + 1;
      hasMore := end < |allProducts|;
      loadingMore := false;
    }

    /** `restoreGridState` at `now`: a fresh saved grid replaces the lists, page and flag. */
    method Restore(now: int) returns (restored: bool)
      modifies this`allProducts, this`displayedProducts, this`currentPage, this`hasMore
      ensures restored <==> session.Stored? && ShouldRestore(session.grid, now)
      ensures restored ==>
        && allProducts == session.grid.allProducts.value
        && displayedProducts == session.grid.displayedProducts.value
        && currentPage == session.grid.currentPage && hasMore == session.grid.hasMore
      ensures !restored ==>
        && allProducts == old(allProducts) && displayedProducts == old(displayedProducts)
        && currentPage == old(currentPage) && hasMore == old(hasMore)
    {
      restored := false;
      if session.Stored? && ShouldRestore(session.grid, now) {
        var g := session.grid;
        allProducts := g.allProducts.value;
        displayedProducts := g.displayedProducts.value;
        currentPage := g.currentPage;
        hasMore := g.hasMore;
        restored := true;
      }
    }

    /** The main effect on `path`: restore if possible, otherwise load afresh. */
    method Activate(path: string, now: int, catalog: Option<seq<Product>>, draws: seq<real>) returns (restored: bool)
      requires catalog.Some? ==> ValidDraws(draws) && |catalog.value| <= |draws| + 1
      modifies this
      ensures restored <==> IsHomePath(path) && old(session).Stored? && ShouldRestore(old(session).grid, now)
      ensures restored ==>
        && !loading && error.None? && session == old(session) && loadingMore == old(loadingMore)
        && allProducts == old(session).grid.allProducts.value
        && displayedProducts == old(session).grid.displayedProducts.value
        && currentPage == old(session).grid.currentPage && hasMore == old(session).grid.hasMore
      ensures IsHomePath(path) && !restored ==>
        && !loading && session == Empty && loadingMore == old(loadingMore)
        && (catalog.None? ==>
              && error == Some(LoadError)
              && allProducts == old(allProducts) && displayedProducts == old(displayedProducts)
              && currentPage == old(currentPage) && hasMore == old(hasMore))
        && (catalog.Some? ==>
              && error.None?
              && multiset(allProducts) == multiset(catalog.value) && |allProducts| == |catalog.value|
              && displayedProducts == allProducts[..Min(ProductsPerPage, |allProducts|)]
              && currentPage == 1
              && hasMore == (|catalog.value| > ProductsPerPage))
      ensures !IsHomePath(path) ==>
        && allProducts == old(allProducts) && displayedProducts == old(displayedProducts)
        && loading == old(loading) && loadingMore == old(loadingMore) && error == old(error)
        && hasMore == old(hasMore) && currentPage == old(currentPage) && session == old(session)
    {
      restored := false;
      if IsHomePath(path) {
        restored := Restore(now);
        if restored {
          loading := false;
          error := None;
        } else {
          LoadInitial(catalog, draws);
        }
      }
    }

    /** `saveGridState` at `now`; a write that throws is caught and leaves the slot alone. */
    method SaveGridState(now: int, path: string, writable: bool)
      modifies this`session
      ensures session == if writable then Stored(Snapshot(allProducts, displayedProducts, currentPage, hasMore, now, path)) else old(session)
    {
      if writable {
        session := Stored(Snapshot(allProducts, displayedProducts, currentPage, hasMore, now, path));
      }
    }

    /** The save effect: the grid is saved only when loaded, non-empty and on a home path. */
    method SaveIfNeeded(now: int, path: string, writable: bool)
      modifies this`session
      ensures ShouldSave(loading, displayedProducts, path) && writable ==>
        session == Stored(Snapshot(allProducts, displayedProducts, currentPage, hasMore, now, path))
      ensures !(ShouldSave(loading, displayedProducts, path) && writable) ==> session == old(session)
    {
      if ShouldSave(loading, displayedProducts, path) {
        SaveGridState(now, path, writable);
      }
    }

    /**
     * The `visibilitychange` (page hidden) and `beforeunload` handlers: they save whenever
     * something is shown on a home path, without looking at `loading`.
     */
    method SaveOnLeave(now: int, path: string, writable: bool)
      modifies this`session
      ensures |displayedProducts| > 0 && IsHomePath(path) && writable ==>
        session == Stored(Snapshot(allProducts, displayedProducts, currentPage, hasMore, now, path))
      ensures !(|displayedProducts| > 0 && IsHomePath(path) && writable) ==> session == old(session)
    {
      if |displayedProducts| > 0 && IsHomePath(path) {
        SaveGridState(now, path, writable);
      }
    }
  }

  /**
   * Scrolling through a catalog of `n` products: after loading the first page and then
   * `loads` more pages the grid shows the first `min(6 * (loads + 1), n)` shuffled products.
   */
  method ScrollThrough(catalog: seq<Product>, draws: seq<real>, loads: nat) returns (shown: nat, more: bool)
    requires ValidDraws(draws) && |catalog| <= |draws| + 1
    ensures shown == Min(ProductsPerPage * (loads + 1), |catalog|)
    ensures more <==> shown < |catalog|
  {
    var grid := new Grid(Empty);
    grid.LoadInitial(Some(catalog), draws);
    var k := 0;
    while k < loads
      invariant 0 <= k <= loads
      invariant grid.Paged() && !grid.loading && !grid.loadingMore && |grid.allProducts| == |catalog|
      invariant 1 <= grid.currentPage
      invariant grid.hasMore <==> ProductsPerPage * grid.currentPage < |catalog|
      invariant grid.currentPage == k + 1 || (!grid.hasMore && ProductsPerPage * grid.currentPage >= |catalog|)
      invariant grid.currentPage <= k + 1
    {
      grid.LoadMore();
      k := k + 1;
    }
    shown := |grid.displayedProducts|;
    more := grid.hasMore;
  }
}

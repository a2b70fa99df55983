/**
 * The filter state of the product list: a search term, a status and a
 * session, each with a default that switches its step off, and the
 * filtered list derived from them.
 */
module ProductFilterState {
  import opened Text
  import opened Seqs
  import opened ProductTypes
  import opened ProductUtils

  const AllValue := "all"

  /** `ProductFilters`. */
  datatype Filters = Filters(search: string, status: string, session: string)

  const DefaultFilters := Filters("", AllValue, AllValue)

  /** The three keys `updateFilter` accepts. */
  datatype FilterKey = SearchKey | StatusKey | SessionKey

  function KeepEverything(): Product -> bool {
    (p: Product) => true
  }

  /** What the search step keeps: everything for an empty or blank term. */
  function SearchKeep(search: string): Product -> bool {
    if search == "" || Trim(search) == [] then KeepEverything() else MatchesSearch(ToLower(search))
  }

  /** What the status step keeps: everything for 'all'. */
  function StatusKeep(status: string, today: int): Product -> bool {
    if status == AllValue then KeepEverything()
    else if status == "vencido" then IsExpiredOn(today)
    else if status == "vencendo" then IsExpiringOn(today)
    else HasStatus(status)
  }

  /** What the session step keeps: everything for 'all'. */
  function SessionKeep(session: string): Product -> bool {
    if session == AllValue then KeepEverything() else HasBrand(session)
  }

  /** The three steps together. */
  function KeepAll(filters: Filters, today: int): Product -> bool {
    (p: Product) =>
      SearchKeep(filters.search)(p) && StatusKeep(filters.status, today)(p) && SessionKeep(filters.session)(p)
  }

  /** The search step: applied only to a non-empty term. */
  function ApplySearch(filters: Filters, products: seq<Product>): seq<Product> {
    if filters.search != "" then FilterProductsBySearch(products, filters.search) else products
  }

  /** The status step: applied only when the status is not 'all'. */
  function ApplyStatus(filters: Filters, products: seq<Product>, today: int): seq<Product> {
    if filters.status != AllValue then FilterProductsByStatus(products, filters.status, today) else products
  }

  /** The session step: applied only when the session is not 'all'. */
  function ApplySession(filters: Filters, products: seq<Product>): seq<Product> {
    if filters.session != AllValue then FilterProductsBySession(products, filters.session) else products
  }

  lemma SearchStepIsFilter(filters: Filters, products: seq<Product>)
    ensures ApplySearch(filters, products) == Filter(products, SearchKeep(filters.search))
  {
    if filters.search == "" || Trim(filters.search) == [] {
      FilterAll(products, KeepEverything());
    }
  }

  lemma StatusStepIsFilter(filters: Filters, products: seq<Product>, today: int)
    ensures ApplyStatus(filters, products, today) == Filter(products, StatusKeep(filters.status, today))
  {
    if filters.status == AllValue {
      FilterAll(products, KeepEverything());
    }
  }

  lemma SessionStepIsFilter(filters: Filters, products: seq<Product>)
    ensures ApplySession(filters, products) == Filter(products, SessionKeep(filters.session))
  {
    if filters.session == AllValue {
      FilterAll(products, KeepEverything());
    }
  }

  /**
   * The list `filteredProducts` derives: search, then status, then
   * session; it is the products the three steps all keep, in their order.
   */
  function FilteredProducts(filters: Filters, products: seq<Product>, today: int): (r: seq<Product>)
    ensures r == Filter(products, KeepAll(filters, today))
    ensures IsSubsequence(r, products)
  {
    var afterSearch := ApplySearch(filters, products);
    var afterStatus := ApplyStatus(filters, afterSearch, today);
    var afterSession := ApplySession(filters, afterStatus);
    ThreeFilters(filters, products, today);
    FilterIsSubsequence(products, KeepAll(filters, today));
    afterSession
  }

  lemma ThreeFilters(filters: Filters, products: seq<Product>, today: int)
    ensures ApplySession(filters, ApplyStatus(filters, ApplySearch(filters, products), today)) ==
      Filter(products, KeepAll(filters, today))
  {
    var a, b, c := SearchKeep(filters.search), StatusKeep(filters.status, today), SessionKeep(filters.session);
    var ab := (p: Product) => a(p) && b(p);
    SearchStepIsFilter(filters, products);
    StatusStepIsFilter(filters, ApplySearch(filters, products), today);
    SessionStepIsFilter(filters, ApplyStatus(filters, ApplySearch(filters, products), today));
    FilterFilter(products, a, b, ab);
    FilterFilter(products, ab, c, KeepAll(filters, today));
  }

  /** Running the three steps in the opposite order gives the same list. */
  lemma FilterOrderIrrelevant(filters: Filters, products: seq<Product>, today: int)
    ensures ApplySearch(filters, ApplyStatus(filters, ApplySession(filters, products), today)) ==
      FilteredProducts(filters, products, today)
  {
    var a, b, c := SearchKeep(filters.search), StatusKeep(filters.status, today), SessionKeep(filters.session);
    var cb := (p: Product) => c(p) && b(p);
    SessionStepIsFilter(filters, products);
    StatusStepIsFilter(filters, ApplySession(filters, products), today);
    SearchStepIsFilter(filters, ApplyStatus(filters, ApplySession(filters, products), today));
    FilterFilter(products, c, b, cb);
    FilterFilter(products, cb, a, KeepAll(filters, today));
  }

  /** `hasActiveFilters`. */
  function HasActiveFilters(filters: Filters): (r: bool)
    ensures r <==> filters != DefaultFilters
  {
    filters.search != "" || filters.status != AllValue || filters.session != AllValue
  }

  /** With the default filters nothing is filtered out. */
  lemma DefaultFiltersKeepEverything(products: seq<Product>, today: int)
    ensures FilteredProducts(DefaultFilters, products, today) == products
    ensures !HasActiveFilters(DefaultFilters)
  {
    var keep := KeepAll(DefaultFilters, today);
    assert SearchKeep("") == KeepEverything() && StatusKeep(AllValue, today) == KeepEverything();
    assert SessionKeep(AllValue) == KeepEverything();
    forall k | 0 <= k < |products|
      ensures keep(products[k])
    {
    }
    FilterAll(products, keep);
  }

  /** The hook's state. */
  class FilterHook {
    var filters: Filters

    /** The initial filters: search '', status and session 'all'. */
    constructor()
      ensures filters == DefaultFilters
    {
      filters := DefaultFilters;
    }

    function Filtered(products: seq<Product>, today: int): seq<Product>
      reads this
    {
      FilteredProducts(filters, products, today)
    }

    function Active(): bool
      reads this
    {
      HasActiveFilters(filters)
    }

    /** `updateFilter(key, value)`: only the named field changes. */
    method UpdateFilter(key: FilterKey, value: string)
      modifies this
      ensures key == SearchKey ==> filters == old(filters).(search := value)
      ensures key == StatusKey ==> filters == old(filters).(status := value)
      ensures key == SessionKey ==> filters == old(filters).(session := value)
    {
      match key
      case SearchKey => filters := filters.(search := value);
      case StatusKey => filters := filters.(status := value);
      case SessionKey => filters := filters.(session := value);
    }

    /** `clearFilters`: back to the defaults, so no filter is active and nothing is filtered out. */
    method ClearFilters()
      modifies this
      ensures filters == DefaultFilters
      ensures !Active()
      ensures forall products, today :: Filtered(products, today) == products
    {
      filters := DefaultFilters;
      forall products, today
        ensures Filtered(products, today) == products
      {
        DefaultFiltersKeepEverything(products, today);
      }
    }
  }
}

/**
 * The dashboard page's view state: the product list, the search, session
 * and days filters, the sort field and order, the page and page size,
 * and the selection, with the handlers that change them. Each handler is
 * one atomic transition; the remote deletes and updates are reduced to
 * their outcome (`ok`), and the day count is taken from an explicit
 * `today` day number instead of the clock.
 */
module Dashboard {
  import opened Wrappers
  import opened Text
  import opened Seqs
  import opened Sorting
  import opened ProductTypes
  import opened ProductUtils
  import opened Sessions
  import SmartSearch

  const AllValue := "all"

  /** The dashboard's own list of sessions for its session filter. */
  const DashboardSessions: seq<string> := [
    "Farináceos & Leites", "Molho & Temperos", "Biscoito & Matinais", "Laticínios & Danones",
    "Ilha", "Congelados", "Bebidas", "Perfumaria", "Limpeza", "Frente de Caixa"]

  /**
   * Four of the dashboard's sessions are not in the shared session table,
   * so the icon lookup gives them the parcel.
   */
  lemma DashboardSessionIcons(i: nat)
    requires i < |DashboardSessions|
    ensures GetSessionIcon(DashboardSessions[i]) == DefaultIcon <==> i == 4 || i == 5 || i == 6 || i == 9
  {
    IconKeysAreSessions(DashboardSessions[i]);
    if DashboardSessions[i] in SESSIONS {
      EverySessionHasIcon(DashboardSessions[i]);
    }
  }

  // ------------------------------------------------------------ filtering

  /** The search: the lower-cased term in the lower-cased name or barcode; the session is not searched. */
  function SearchKeep(term: string): Product -> bool {
    (p: Product) =>
      || Contains(ToLower(p.name), ToLower(term))
      || (p.barcode.Some? && Contains(ToLower(p.barcode.value), ToLower(term)))
  }

  /** The days filter: 'expired', '0', '7', '15' and '30'; any other value keeps everything. */
  function DaysKeep(daysFilter: string, today: int): Product -> bool {
    (p: Product) =>
      var days := DaysUntilExpiry(p, today);
      if daysFilter == "expired" then days < 0
      else if daysFilter == "0" then days == 0
      else if daysFilter == "7" then 0 <= days <= 7
      else if daysFilter == "15" then 0 <= days <= 15
      else if daysFilter == "30" then 0 <= days <= 30
      else true
  }

  /** A product passes every active filter: a non-empty search term, a session other than 'all', a days value other than 'all'. */
  function Shown(searchTerm: string, sessionFilter: string, daysFilter: string, today: int): Product -> bool {
    (p: Product) =>
      && (searchTerm != "" ==> SearchKeep(searchTerm)(p))
      && (sessionFilter != AllValue ==> p.brand == sessionFilter)
      && (daysFilter != AllValue ==> DaysKeep(daysFilter, today)(p))
  }

  /** Skipping a filter is filtering by a condition that holds everywhere. */
  function Guarded<T>(active: bool, f: T -> bool): T -> bool {
    (x: T) => active ==> f(x)
  }

  lemma StepIsFilter<T>(s: seq<T>, active: bool, f: T -> bool)
    ensures (if active then Filter(s, f) else s) == Filter(s, Guarded(active, f))
  {
    if active {
      FilterFilter(s, f, (x: T) => true, Guarded(active, f));
      FilterAll(Filter(s, f), (x: T) => true);
      FilterAll(s, (x: T) => true);
      FilterFilter(s, (x: T) => true, f, Guarded(active, f));
    } else {
      FilterAll(s, Guarded(active, f));
    }
  }

  /** `if (active) list = list.filter(f)`. */
  function Step<T>(s: seq<T>, active: bool, f: T -> bool): seq<T> {
    if active then Filter(s, f) else s
  }

  /** Three optional filters in a row are one filter by the conjunction of the active ones. */
  lemma ThreeSteps<T>(s: seq<T>, a1: bool, f1: T -> bool, a2: bool, f2: T -> bool, a3: bool, f3: T -> bool, h: T -> bool)
    requires forall x :: h(x) == (Guarded(a1, f1)(x) && Guarded(a2, f2)(x) && Guarded(a3, f3)(x))
    ensures Step(Step(Step(s, a1, f1), a2, f2), a3, f3) == Filter(s, h)
  {
    var g1, g2, g3 := Guarded(a1, f1), Guarded(a2, f2), Guarded(a3, f3);
    var g12 := (x: T) => g1(x) && g2(x);
    StepIsFilter(s, a1, f1);
    StepIsFilter(Filter(s, g1), a2, f2);
    StepIsFilter(Filter(Filter(s, g1), g2), a3, f3);
    FilterFilter(s, g1, g2, g12);
    FilterFilter(s, g12, g3, h);
  }

  /**
   * The three filters of the view effect, applied one after the other as
   * the source does; together they are one filter by `Shown`, so the
   * result keeps the input order and holds exactly the products shown.
   */
  function FilterView(products: seq<Product>, searchTerm: string, sessionFilter: string, daysFilter: string, today: int): (r: seq<Product>)
    ensures r == Filter(products, Shown(searchTerm, sessionFilter, daysFilter, today))
    ensures IsSubsequence(r, products)
    ensures forall p :: p in r <==> p in products && Shown(searchTerm, sessionFilter, daysFilter, today)(p)
  {
    var shown := Shown(searchTerm, sessionFilter, daysFilter, today);
    ThreeSteps(products, searchTerm != "", SearchKeep(searchTerm), sessionFilter != AllValue, HasBrand(sessionFilter),
               daysFilter != AllValue, DaysKeep(daysFilter, today), shown);
    FilterIsSubsequence(products, shown);
    FilterKeeps(products, shown);
    var bySearch := Step(products, searchTerm != "", SearchKeep(searchTerm));
    var bySession := Step(bySearch, sessionFilter != AllValue, HasBrand(sessionFilter));
    Step(bySession, daysFilter != AllValue, DaysKeep(daysFilter, today))
  }

  // -------------------------------------------------------------- sorting

  datatype SortField = ByName | ByDate | ByQuantity
  datatype SortOrder = Asc | Desc

  /**
   * `comparison <= 0` for the field: `localeCompare` on names (given as
   * `collate`), the expiry instants, or the quantities.
   */
  predicate Ascending(field: SortField, collate: (string, string) -> bool, a: Product, b: Product) {
    match field
    case ByName => collate(a.name, b.name)
    case ByDate => ExpiryKey(a) <= ExpiryKey(b)
    case ByQuantity => a.quantity <= b.quantity
  }

  /** The comparator of the view effect read as "not after": the field's order, reversed for 'desc'. */
  function Comparator(field: SortField, order: SortOrder, collate: (string, string) -> bool): (Product, Product) -> bool {
    (a: Product, b: Product) => if order == Asc then Ascending(field, collate, a, b) else Ascending(field, collate, b, a)
  }

  /** The comparator is consistent for every field and order, given a consistent collation for names. */
  lemma ComparatorIsTotalPreorder(field: SortField, order: SortOrder, collate: (string, string) -> bool)
    requires field == ByName ==> IsTotalPreorder(collate)
    ensures IsTotalPreorder(Comparator(field, order, collate))
  {
    var le := Comparator(field, order, collate);
    forall a, b ensures le(a, b) || le(b, a) {
      if field == ByName {
        assert collate(a.name, b.name) || collate(b.name, a.name);
      }
    }
    forall a, b, c | le(a, b) && le(b, c) ensures le(a, c) {
      if field == ByName {
        if order == Asc {
          assert collate(a.name, b.name) && collate(b.name, c.name);
        } else {
          assert collate(c.name, b.name) && collate(b.name, a.name);
        }
      }
    }
  }

  /**
   * `filteredProducts` after the view effect: the shown products, sorted
   * by the chosen field and order; products the comparator calls equal
   * keep their list order.
   */
  function VisibleProducts(products: seq<Product>, searchTerm: string, sessionFilter: string, daysFilter: string,
                           field: SortField, order: SortOrder, today: int, collate: (string, string) -> bool): (r: seq<Product>)
    ensures multiset(r) == multiset(FilterView(products, searchTerm, sessionFilter, daysFilter, today))
    ensures forall p :: p in r <==> p in products && Shown(searchTerm, sessionFilter, daysFilter, today)(p)
    ensures (field == ByName ==> IsTotalPreorder(collate)) ==>
      && SortedBy(r, Comparator(field, order, collate))
      && forall e :: ClassOf(r, e, Comparator(field, order, collate))
                     == ClassOf(FilterView(products, searchTerm, sessionFilter, daysFilter, today), e, Comparator(field, order, collate))
  {
    var shown := FilterView(products, searchTerm, sessionFilter, daysFilter, today);
    var le := Comparator(field, order, collate);
    SortOrderedWhenConsistent(shown, field, order, collate);
    assert forall p :: p in SortBy(shown, le) <==> p in multiset(shown);
    SortBy(shown, le)
  }

  lemma SortOrderedWhenConsistent(shown: seq<Product>, field: SortField, order: SortOrder, collate: (string, string) -> bool)
    ensures (field == ByName ==> IsTotalPreorder(collate)) ==>
      && SortedBy(SortBy(shown, Comparator(field, order, collate)), Comparator(field, order, collate))
      && forall e :: ClassOf(SortBy(shown, Comparator(field, order, collate)), e, Comparator(field, order, collate))
                     == ClassOf(shown, e, Comparator(field, order, collate))
  {
    if field == ByName ==> IsTotalPreorder(collate) {
      ComparatorIsTotalPreorder(field, order, collate);
      SortByOrderedAndStable(shown, Comparator(field, order, collate));
    }
  }

  // ----------------------------------------------------------- pagination

  /** The page sizes the selector offers. */
  const PageSizes: set<int> := {5, 10, 20, 50}

  /** `Math.ceil(n / itemsPerPage)`: the fewest pages that hold `n` items. */
  function TotalPages(n: nat, perPage: int): (r: nat)
    requires perPage > 0
    ensures r == 0 <==> n == 0
    ensures (r - 1) * perPage < n <= r * perPage || n == 0
  {
    var r := SmartSearch.CeilDiv(n, perPage);
    NonNegativeFactor(r, perPage);
    r
  }

  lemma NonNegativeFactor(r: int, b: int)
    requires b > 0 && r * b >= 0
    ensures r >= 0
  {
  }

  /** `startIndex`: the position of the first item of a page. */
  function PageStart(perPage: int, page: int): nat
    requires perPage > 0 && page >= 1
  {
    NonNegativeFactor(page - 1, perPage);
    (page - 1) * perPage
  }

  /** `items.slice(startIndex, startIndex + perPage)`; the slice stops at the end of the list. */
  function Page<T>(items: seq<T>, perPage: int, page: int): (r: seq<T>)
    requires perPage > 0 && page >= 1
    ensures |r| <= perPage
    ensures forall i :: 0 <= i < |r| ==> PageStart(perPage, page) + i < |items| && r[i] == items[PageStart(perPage, page) + i]
    ensures r != [] <==> page <= TotalPages(|items|, perPage)
  {
    var start := PageStart(perPage, page);
    PageStartBelow(|items|, perPage, page);
    if start >= |items| then [] else items[start..if start + perPage < |items| then start + perPage else |items|]
  }

  /** A page starts inside the list exactly when it is one of the first `TotalPages`. */
  lemma PageStartBelow(n: nat, perPage: int, page: int)
    requires perPage > 0 && page >= 1
    ensures PageStart(perPage, page) < n <==> page <= TotalPages(n, perPage)
  {
    var t := TotalPages(n, perPage);
    if page <= t {
      assert (page - 1) * perPage <= (t - 1) * perPage;
    } else {
      assert (page - 1) * perPage >= t * perPage;
    }
  }

  /** Every item is on exactly one of the pages: item `k` is entry `k % perPage` of page `k / perPage + 1`. */
  lemma PagesCoverList<T>(items: seq<T>, perPage: int, k: nat)
    requires perPage > 0 && k < |items|
    ensures 1 <= k / perPage + 1 <= TotalPages(|items|, perPage)
    ensures k % perPage < |Page(items, perPage, k / perPage + 1)|
    ensures Page(items, perPage, k / perPage + 1)[k % perPage] == items[k]
  {
    var page := k / perPage + 1;
    assert PageStart(perPage, page) + k % perPage == k;
    PageStartBelow(|items|, perPage, page);
  }

  /** The number on the `i`-th button of the page window. */
  function PageNumber(totalPages: int, currentPage: int, i: int): int {
    if totalPages <= 5 then i + 1
    else if currentPage <= 3 then i + 1
    else if currentPage >= totalPages - 2 then totalPages - 4 + i
    else currentPage - 2 + i
  }

  /**
   * The page buttons: `min(5, totalPages)` consecutive page numbers, all
   * of them real pages, including the current page when that is one.
   */
  function PageWindow(totalPages: nat, currentPage: int): (r: seq<int>)
    ensures |r| == if totalPages < 5 then totalPages else 5
    ensures forall i :: 0 <= i < |r| ==> r[i] == r[0] + i
    ensures forall i :: 0 <= i < |r| ==> 1 <= r[i] <= totalPages
    ensures 1 <= currentPage <= totalPages ==> currentPage in r
  {
    var r := seq(if totalPages < 5 then totalPages else 5, i => PageNumber(totalPages, currentPage, i));
    if 1 <= currentPage <= totalPages then
      assert r[currentPage - r[0]] == currentPage;
      r
    else r
  }

  /** With more than five pages and the current page away from both ends, it is the middle button. */
  lemma PageWindowCentred(totalPages: nat, currentPage: int)
    requires totalPages > 5 && 3 < currentPage < totalPages - 2
    ensures PageWindow(totalPages, currentPage)[2] == currentPage
  {
  }

  // -------------------------------------------------------- list updaters

  function NotIn(ids: set<string>): Product -> bool {
    (p: Product) => p.id !in ids
  }

  /** The local list after a delete: the products with the given ids are gone and the rest keep their order. */
  function WithoutIds(products: seq<Product>, ids: set<string>): (r: seq<Product>)
    ensures IsSubsequence(r, products)
    ensures forall p :: p in r <==> p in products && p.id !in ids
  {
    FilterIsSubsequence(products, NotIn(ids));
    FilterKeeps(products, NotIn(ids));
    Filter(products, NotIn(ids))
  }

  function SetStatusIf(ids: set<string>, status: string): Product -> Product {
    (p: Product) => if p.id in ids then p.(status := status) else p
  }

  /** The local list after a bulk status change: only the selected products' status changes. */
  function WithStatus(products: seq<Product>, ids: set<string>, status: string): (r: seq<Product>)
    ensures |r| == |products|
    ensures forall i :: 0 <= i < |r| ==> r[i].(status := products[i].status) == products[i]
    ensures forall i :: 0 <= i < |r| ==> r[i].status == if products[i].id in ids then status else products[i].status
  {
    Map(products, SetStatusIf(ids, status))
  }

  // ----------------------------------------------------------- view state

  /** The React state of the dashboard that the handlers change. */
  class DashboardView {
    var products: seq<Product>
    var filteredProducts: seq<Product>
    var searchTerm: string
    var sessionFilter: string
    var daysFilter: string
    var sortField: SortField
    var sortOrder: SortOrder
    var selectedProducts: set<string>
    var currentPage: int
    var itemsPerPage: int

    /** The page number never drops below one and the page size is one the selector offers. */
    ghost predicate Valid()
      reads this
    {
      currentPage >= 1 && itemsPerPage in PageSizes
    }

    /** The initial state: nothing loaded, no filter, sorted by date ascending, page 1 of 10 items. */
    constructor()
      ensures Valid()
      ensures products == [] && filteredProducts == [] && selectedProducts == {}
      ensures searchTerm == "" && sessionFilter == AllValue && daysFilter == AllValue
      ensures sortField == ByDate && sortOrder == Asc
      ensures currentPage == 1 && itemsPerPage == 10
    {
      products := [];
      filteredProducts := [];
      searchTerm := "";
      sessionFilter := AllValue;
      daysFilter := AllValue;
      sortField := ByDate;
      sortOrder := Asc;
      selectedProducts := {};
      currentPage := 1;
      itemsPerPage := 10;
    }

    function TotalPagesNow(): nat
      reads this
      requires Valid()
    {
      TotalPages(|filteredProducts|, itemsPerPage)
    }

    /** `paginatedProducts`: the current page of the visible list. */
    function PaginatedProducts(): seq<Product>
      reads this
      requires Valid()
    {
      Page(filteredProducts, itemsPerPage, currentPage)
    }

    /** The header checkbox: a non-empty page whose products are all selected. */
    predicate AllOnPageSelected()
      reads this
      requires Valid()
    {
      PaginatedProducts() != [] && forall p :: p in PaginatedProducts() ==> p.id in selectedProducts
    }

    predicate FiltersActive()
      reads this
    {
      searchTerm != "" || sessionFilter != AllValue || daysFilter != AllValue
    }

    /** What the view effect puts in `filteredProducts` for the current list, filters and sort. */
    function View(today: int, collate: (string, string) -> bool): seq<Product>
      reads this`products, this`searchTerm, this`sessionFilter, this`daysFilter, this`sortField, this`sortOrder
    {
      VisibleProducts(products, searchTerm, sessionFilter, daysFilter, sortField, sortOrder, today, collate)
    }

    /**
     * The end of a load: on success the returned rows become both the
     * product list and the filtered list; on an error both stay as they
     * were.
     */
    method LoadProducts(ok: bool, loaded: seq<Product>)
      modifies this`products, this`filteredProducts
      ensures ok ==> products == loaded && filteredProducts == loaded
      ensures !ok ==> products == old(products) && filteredProducts == old(filteredProducts)
    {
      if ok {
        products := loaded;
        filteredProducts := loaded;
      }
    }

    /**
     * The view effect: filter the list by search, session and days, then
     * sort the copy with the chosen comparator.
     */
    method ApplyFilters(today: int, collate: (string, string) -> bool)
      modifies this`filteredProducts
      ensures filteredProducts == View(today, collate)
    {
      var filtered := products;
      if searchTerm != "" {
        filtered := Filter(filtered, SearchKeep(searchTerm));
      }
      assert filtered == Step(products, searchTerm != "", SearchKeep(searchTerm));
      ghost var bySearch := filtered;
      if sessionFilter != AllValue {
        filtered := Filter(filtered, HasBrand(sessionFilter));
      }
      assert filtered == Step(bySearch, sessionFilter != AllValue, HasBrand(sessionFilter));
      ghost var bySession := filtered;
      if daysFilter != AllValue {
        filtered := Filter(filtered, DaysKeep(daysFilter, today));
      }
      assert filtered == Step(bySession, daysFilter != AllValue, DaysKeep(daysFilter, today));
      assert filtered == FilterView(products, searchTerm, sessionFilter, daysFilter, today);
      filtered := SortBy(filtered, Comparator(sortField, sortOrder, collate));
      assert filtered == View(today, collate);
      filteredProducts := filtered;
    }

    /** Typing in the search box; a changed filter sends the view back to page 1. */
    method SetSearchTerm(term: string)
      requires Valid()
      modifies this`searchTerm, this`currentPage
      ensures Valid()
      ensures searchTerm == term
      ensures currentPage == if term == old(searchTerm) then old(currentPage) else 1
    {
      if term != searchTerm {
        searchTerm := term;
        currentPage := 1;
      }
    }

    /** Choosing a session; a changed filter sends the view back to page 1. */
    method SetSessionFilter(session: string)
      requires Valid()
      modifies this`sessionFilter, this`currentPage
      ensures Valid()
      ensures sessionFilter == session
      ensures currentPage == if session == old(sessionFilter) then old(currentPage) else 1
    {
      if session != sessionFilter {
        sessionFilter := session;
        currentPage := 1;
      }
    }

    /** Choosing a days range; a changed filter sends the view back to page 1. */
    method SetDaysFilter(days: string)
      requires Valid()
      modifies this`daysFilter, this`currentPage
      ensures Valid()
      ensures daysFilter == days
      ensures currentPage == if days == old(daysFilter) then old(currentPage) else 1
    {
      if days != daysFilter {
        daysFilter := days;
        currentPage := 1;
      }
    }

    /** Escape with a filter active clears all three filters and returns to page 1; otherwise it does nothing. */
    method PressEscape()
      requires Valid()
      modifies this`searchTerm, this`sessionFilter, this`daysFilter, this`currentPage
      ensures Valid()
      ensures !FiltersActive()
      ensures currentPage == if old(FiltersActive()) then 1 else old(currentPage)
    {
      if FiltersActive() {
        searchTerm := "";
        sessionFilter := AllValue;
        daysFilter := AllValue;
        currentPage := 1;
      }
    }

    /** `handleSort`: the current field flips the order; another field is chosen ascending. */
    method HandleSort(field: SortField)
      modifies this`sortField, this`sortOrder
      ensures sortField == field
      ensures old(sortField) == field ==> sortOrder == (if old(sortOrder) == Asc then Desc else Asc)
      ensures old(sortField) != field ==> sortOrder == Asc
    {
      if sortField == field {
        sortOrder := if sortOrder == Asc then Desc else Asc;
      } else {
        sortField := field;
        sortOrder := Asc;
      }
    }

    /** The page size selector: the new size, back to page 1. */
    method SetItemsPerPage(value: int)
      requires Valid() && value in PageSizes
      modifies this`itemsPerPage, this`currentPage
      ensures Valid()
      ensures itemsPerPage == value && currentPage == 1
    {
      itemsPerPage := value;
      currentPage := 1;
    }

    /** The previous-page button, shown only when there is more than one page: one back, never below 1. */
    method PreviousPage()
      requires Valid() && TotalPagesNow() > 1
      modifies this`currentPage
      ensures Valid()
      ensures currentPage == if old(currentPage) > 1 then old(currentPage) - 1 else 1
      ensures old(currentPage) <= TotalPagesNow() ==> currentPage in PageWindow(TotalPagesNow(), currentPage)
    {
      currentPage := if currentPage - 1 > 1 then currentPage - 1 else 1;
    }

    /** The next-page button, shown only when there is more than one page: one on, never past the last page. */
    method NextPage()
      requires Valid() && TotalPagesNow() > 1
      modifies this`currentPage
      ensures Valid()
      ensures currentPage == if old(currentPage) + 1 < TotalPagesNow() then old(currentPage) + 1 else TotalPagesNow()
      ensures currentPage in PageWindow(TotalPagesNow(), currentPage)
    {
      var total := TotalPagesNow();
      currentPage := if currentPage + 1 < total then currentPage + 1 else total;
    }

    /** A numbered button: that page becomes current. */
    method GoToPage(page: int)
      requires Valid() && page in PageWindow(TotalPagesNow(), currentPage)
      modifies this`currentPage
      ensures Valid()
      ensures currentPage == page && page <= TotalPagesNow()
    {
      currentPage := page;
    }

    /** A row checkbox: adds or removes that id. */
    method SelectProduct(id: string, checked: bool)
      modifies this`selectedProducts
      ensures selectedProducts == if checked then old(selectedProducts) + {id} else old(selectedProducts) - {id}
    {
      if checked {
        selectedProducts := selectedProducts + {id};
      } else {
        selectedProducts := selectedProducts - {id};
      }
    }

    /** The header checkbox: the ids of the current page, or nothing. */
    method SelectAll(checked: bool)
      requires Valid()
      modifies this`selectedProducts
      ensures checked ==> selectedProducts == set p | p in PaginatedProducts() :: p.id
      ensures checked && PaginatedProducts() != [] ==> AllOnPageSelected()
      ensures !checked ==> selectedProducts == {}
    {
      if checked {
        selectedProducts := set p | p in PaginatedProducts() :: p.id;
      } else {
        selectedProducts := {};
      }
    }

    /** `handleDelete` once the remote delete answered: on success the product leaves the list and the selection. */
    method Delete(id: string, ok: bool)
      modifies this`products, this`selectedProducts
      ensures ok ==> products == WithoutIds(old(products), {id})
      ensures ok ==> selectedProducts == old(selectedProducts) - {id}
      ensures !ok ==> products == old(products) && selectedProducts == old(selectedProducts)
    {
      if ok {
        products := WithoutIds(products, {id});
        selectedProducts := selectedProducts - {id};
      }
    }

    /** `handleBulkDelete` once the remote delete answered: on success the selected products go and the selection empties. */
    method BulkDelete(ok: bool)
      modifies this`products, this`selectedProducts
      ensures ok ==> products == WithoutIds(old(products), old(selectedProducts))
      ensures ok ==> selectedProducts == {}
      ensures !ok ==> products == old(products) && selectedProducts == old(selectedProducts)
    {
      if ok {
        products := WithoutIds(products, selectedProducts);
        selectedProducts := {};
      }
    }

    /** `handleBulkStatusChange` once the remote update answered: on success the selected products take the status. */
    method BulkStatusChange(newStatus: string, ok: bool)
      modifies this`products, this`selectedProducts
      ensures ok ==> products == WithStatus(old(products), old(selectedProducts), newStatus)
      ensures ok ==> selectedProducts == {}
      ensures !ok ==> products == old(products) && selectedProducts == old(selectedProducts)
    {
      if ok {
        products := WithStatus(products, selectedProducts, newStatus);
        selectedProducts := {};
      }
    }
  }
}

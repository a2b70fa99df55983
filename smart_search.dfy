/**
 * The smart search box: suggestions drawn from the products while the
 * user types, the list of recent searches, and the quick-filter chips
 * with their counts. `now` is the current instant in milliseconds since
 * 1970-01-01T00:00:00Z.
 */
module SmartSearch {
  import opened Wrappers
  import opened Text
  import opened Seqs
  import opened Counting
  import opened ProductTypes
  import opened ProductUtils
  import opened ProductInsights

  // --------------------------------------------------------- suggestions

  /**
   * The suggestions one product contributes, in the order they are added
   * to the set: its name and its session when they contain the term
   * ignoring case, its barcode when it contains the term exactly.
   */
  function ProductHits(p: Product, term: string): seq<string> {
    NameHit(p, term) + BrandHit(p, term) + BarcodeHit(p, term)
  }

  function NameHit(p: Product, term: string): seq<string> {
    if Contains(ToLower(p.name), ToLower(term)) then [p.name] else []
  }

  function BrandHit(p: Product, term: string): seq<string> {
    if Contains(ToLower(p.brand), ToLower(term)) then [p.brand] else []
  }

  function BarcodeHit(p: Product, term: string): seq<string> {
    if p.barcode.Some? && Contains(p.barcode.value, term) then [p.barcode.value] else []
  }

  function HitsOf(term: string): Product -> seq<string> {
    (p: Product) => ProductHits(p, term)
  }

  /** `x` is a suggestion `p` offers for `term`. */
  predicate Offers(p: Product, term: string, x: string) {
    || (x == p.name && Contains(ToLower(p.name), ToLower(term)))
    || (x == p.brand && Contains(ToLower(p.brand), ToLower(term)))
    || (p.barcode == Some(x) && Contains(x, term))
  }

  /** `Array.from(suggestions).slice(0, 5)`: the first five distinct hits in order of first appearance. */
  function SuggestionList(products: seq<Product>, term: string): seq<string> {
    var distinct := Dedup(FlatMap(products, HitsOf(term)));
    distinct[..if |distinct| < 5 then |distinct| else 5]
  }

  /** `generateSuggestions`: fills the set product by product, then keeps its first five entries. */
  method GenerateSuggestions(products: seq<Product>, term: string) returns (suggestions: seq<string>)
    ensures suggestions == SuggestionList(products, term)
  {
    var lowerTerm := ToLower(term);
    var found: seq<string> := [];
    for i := 0 to |products|
      invariant found == Dedup(FlatMap(products[..i], HitsOf(term)))
    {
      var product := products[i];
      ghost var before := FlatMap(products[..i], HitsOf(term));
      found := AddIf(found, before, Contains(ToLower(product.name), lowerTerm), product.name);
      ghost var afterName := before + NameHit(product, term);
      found := AddIf(found, afterName, Contains(ToLower(product.brand), lowerTerm), product.brand);
      ghost var afterBrand := afterName + BrandHit(product, term);
      var hasCode := product.barcode.Some? && Contains(product.barcode.value, term);
      found := AddIf(found, afterBrand, hasCode, product.barcode.GetOr(""));
      FlatMapStep(products, i, HitsOf(term));
      Regroup(before, NameHit(product, term), BrandHit(product, term), BarcodeHit(product, term));
    }
    assert products[..|products|] == products;
    suggestions := found[..if |found| < 5 then |found| else 5];
  }

  lemma Regroup(a: seq<string>, b: seq<string>, c: seq<string>, d: seq<string>)
    ensures a + (b + c + d) == a + b + c + d
  {
  }

  /** `if (matches) set.add(x)` on the set of the distinct strings of `added`. */
  method AddIf(found: seq<string>, ghost added: seq<string>, matches: bool, x: string) returns (r: seq<string>)
    requires found == Dedup(added)
    ensures r == Dedup(added + if matches then [x] else [])
  {
    if matches {
      DedupSnoc(added, x);
      if x !in found {
        r := found + [x];
      } else {
        r := found;
      }
    } else {
      r := found;
      assert added + [] == added;
    }
  }

  lemma ProductHitsMembership(p: Product, term: string, x: string)
    ensures x in ProductHits(p, term) <==> Offers(p, term, x)
  {
  }

  /** A string is among the hits exactly when some product offers it. */
  lemma HitsMembership(products: seq<Product>, term: string, x: string)
    ensures x in FlatMap(products, HitsOf(term)) <==> exists p :: p in products && Offers(p, term, x)
  {
    FlatMapMembership(products, HitsOf(term), x);
    forall p ensures x in HitsOf(term)(p) <==> Offers(p, term, x) {
      ProductHitsMembership(p, term, x);
    }
  }

  /**
   * At most five suggestions, pairwise distinct, each offered by some
   * product, in order of first appearance (a prefix of all distinct
   * hits); with fewer than five, every offered string is among them.
   */
  lemma SuggestionListProperties(products: seq<Product>, term: string)
    ensures |SuggestionList(products, term)| <= 5
    ensures Distinct(SuggestionList(products, term))
    ensures forall x :: x in SuggestionList(products, term) ==> exists p :: p in products && Offers(p, term, x)
    ensures SuggestionList(products, term) == Dedup(FlatMap(products, HitsOf(term)))[..|SuggestionList(products, term)|]
    ensures |SuggestionList(products, term)| < 5 ==>
      forall p, x :: p in products && Offers(p, term, x) ==> x in SuggestionList(products, term)
  {
    var hits := FlatMap(products, HitsOf(term));
    var r := SuggestionList(products, term);
    DedupDistinct(hits);
    forall x | x in r ensures exists p :: p in products && Offers(p, term, x) {
      DedupMembership(hits, x);
      HitsMembership(products, term, x);
    }
    if |r| < 5 {
      forall p, x | p in products && Offers(p, term, x) ensures x in r {
        HitsMembership(products, term, x);
        DedupMembership(hits, x);
      }
    }
  }

  // ------------------------------------------------------ recent searches

  /**
   * The recent list after searching `term`: a non-empty term not yet in
   * the list goes to the front of at most four earlier entries.
   */
  function UpdatedRecent(recent: seq<string>, term: string): seq<string> {
    if term != "" && term !in recent then [term] + recent[..if |recent| < 4 then |recent| else 4]
    else recent
  }

  /**
   * A new term goes to the front and the rest keep their order; an empty
   * or known term changes nothing; a list of at most five distinct
   * entries stays one.
   */
  lemma RecentSearchesUpdate(recent: seq<string>, term: string)
    ensures term != "" && term !in recent ==>
      && UpdatedRecent(recent, term)[0] == term
      && UpdatedRecent(recent, term)[1..] == recent[..|UpdatedRecent(recent, term)| - 1]
      && |UpdatedRecent(recent, term)| == if |recent| < 5 then |recent| + 1 else 5
    ensures term == "" || term in recent ==> UpdatedRecent(recent, term) == recent
    ensures |recent| <= 5 ==> |UpdatedRecent(recent, term)| <= 5
    ensures Distinct(recent) ==> Distinct(UpdatedRecent(recent, term))
    ensures term != "" ==> term in UpdatedRecent(recent, term)
  {
    if term != "" && term !in recent {
      var r := UpdatedRecent(recent, term);
      assert r[1..] == recent[..|r| - 1];
    }
  }

  /** The search box state: the suggestion list, whether it is open, and the recent searches. */
  class SearchBox {
    var suggestions: seq<string>
    var showSuggestions: bool
    var recentSearches: seq<string>

    /** The list saved by an earlier session, already parsed, or `[]`. */
    constructor(saved: seq<string>)
      ensures suggestions == [] && !showSuggestions && recentSearches == saved
    {
      suggestions := [];
      showSuggestions := false;
      recentSearches := saved;
    }

    /** The effect on `[searchTerm, products]`: suggestions only for a term longer than one character. */
    method Refresh(products: seq<Product>, searchTerm: string)
      modifies this
      ensures suggestions == if |searchTerm| > 1 then SuggestionList(products, searchTerm) else []
      ensures showSuggestions == old(showSuggestions) && recentSearches == old(recentSearches)
    {
      if |searchTerm| > 1 {
        suggestions := GenerateSuggestions(products, searchTerm);
      } else {
        suggestions := [];
      }
    }

    /** `handleSearch`: the term is passed on as the search, remembered, and the list closes. */
    method HandleSearch(term: string) returns (searched: string)
      modifies this
      ensures searched == term
      ensures recentSearches == UpdatedRecent(old(recentSearches), term)
      ensures !showSuggestions && suggestions == old(suggestions)
    {
      searched := term;
      if term != "" && term !in recentSearches {
        var newRecent := [term] + recentSearches[..if |recentSearches| < 4 then |recentSearches| else 4];
        recentSearches := newRecent;
      }
      showSuggestions := false;
    }

    /** `onFocus`: the list opens. */
    method Focus()
      modifies this
      ensures showSuggestions && suggestions == old(suggestions) && recentSearches == old(recentSearches)
    {
      showSuggestions := true;
    }

    /** `handleKeyDown`: Enter searches the current term, Escape closes the list, other keys do nothing. */
    method HandleKeyDown(key: string, searchTerm: string) returns (searched: Option<string>)
      modifies this
      ensures key == "Enter" ==>
        && searched == Some(searchTerm) && !showSuggestions
        && recentSearches == UpdatedRecent(old(recentSearches), searchTerm)
      ensures key != "Enter" ==> searched == None && recentSearches == old(recentSearches)
      ensures key == "Escape" ==> !showSuggestions
      ensures key != "Enter" && key != "Escape" ==> showSuggestions == old(showSuggestions)
      ensures suggestions == old(suggestions)
    {
      if key == "Enter" {
        var term := HandleSearch(searchTerm);
        searched := Some(term);
      } else {
        searched := None;
        if key == "Escape" {
          showSuggestions := false;
        }
      }
    }
  }

  // ------------------------------------------------------- status chips

  datatype QuickFilter = QuickFilter(name: string, value: string, count: nat)

  const DayMs := 86400000

  /** `new Date('YYYY-MM-DD')` is midnight UTC of the expiry day. */
  function ExpiryMs(p: Product): int {
    DayNumber(p.expiry) * DayMs
  }

  /** `Math.ceil(a / b)` for a positive `b`. */
  function CeilDiv(a: int, b: int): (r: int)
    requires b > 0
    ensures (r - 1) * b < a <= r * b
  {
    -((-a) / b)
  }

  /** The chip's own day count: the time to the expiry instant in days, rounded up. */
  function DaysLeftCeil(p: Product, now: int): int {
    CeilDiv(ExpiryMs(p) - now, DayMs)
  }

  function ExpiredAt(now: int): Product -> bool {
    (p: Product) => ExpiryMs(p) < now
  }

  function ExpiringAt(now: int): Product -> bool {
    (p: Product) => 0 <= DaysLeftCeil(p, now) <= 7
  }

  /** `statusFilters`: expired, expiring within seven days, and the two markdown statuses. */
  function StatusFilters(products: seq<Product>, now: int): seq<QuickFilter> {
    [ QuickFilter("Vencidos", "expired", |Filter(products, ExpiredAt(now))|),
      QuickFilter("Vencendo (7d)", "7days", |Filter(products, ExpiringAt(now))|),
      QuickFilter("Rebaixa 1", FirstMarkdown, |Filter(products, HasStatus(FirstMarkdown))|),
      QuickFilter("Rebaixa 2", SecondMarkdown, |Filter(products, HasStatus(SecondMarkdown))|) ]
  }

  /**
   * The markdown chips count exactly the products with that stored status,
   * the same numbers as the insight card, and never more than there are
   * products together.
   */
  lemma MarkdownChipsExact(products: seq<Product>, now: int)
    ensures StatusFilters(products, now)[2].count == ByStatus(products).rebaixa1
    ensures StatusFilters(products, now)[3].count == ByStatus(products).rebaixa2
    ensures StatusFilters(products, now)[2].count + StatusFilters(products, now)[3].count <= |products|
  {
    ByStatusPartition(products);
  }

  /**
   * A product is counted by both the expired and the expiring chip exactly
   * when its expiry instant passed less than a day ago: the rounded-up day
   * count is then 0.
   */
  lemma ExpiredAndExpiringOverlap(p: Product, now: int)
    ensures ExpiredAt(now)(p) && ExpiringAt(now)(p) <==> now - DayMs < ExpiryMs(p) < now
  {
  }

  /** At midnight UTC of day `today` both chips agree with the whole-day count. */
  lemma ChipsAtMidnight(p: Product, today: int)
    ensures DaysLeftCeil(p, today * DayMs) == DaysUntilExpiry(p, today)
    ensures ExpiredAt(today * DayMs)(p) <==> DaysUntilExpiry(p, today) < 0
  {
    var d := DaysUntilExpiry(p, today);
    assert ExpiryMs(p) - today * DayMs == d * DayMs;
    var r := DaysLeftCeil(p, today * DayMs);
    assert (r - 1) * DayMs < d * DayMs <= r * DayMs;
  }

  // ------------------------------------------------------ session chips

  /** The session list the chips are drawn from, which is not the list of `SESSIONS`. */
  const SearchSessions: seq<string> := [
    "Farináceos & Leites", "Molho & Temperos", "Biscoito & Matinais", "Laticínios & Danones",
    "Ilha", "Congelados", "Bebidas", "Perfumaria", "Limpeza", "Frente de Caixa"]

  function SessionChip(products: seq<Product>): string -> QuickFilter {
    (session: string) => QuickFilter(session, session, |Filter(products, HasBrand(session))|)
  }

  function HasProducts(f: QuickFilter): bool {
    f.count > 0
  }

  /** `sessionFilters`: a chip per session that holds at least one product. */
  function SessionFilters(products: seq<Product>, sessions: seq<string>): seq<QuickFilter> {
    Filter(Map(sessions, SessionChip(products)), HasProducts)
  }

  function LabelOf(f: QuickFilter): string {
    f.name
  }

  function Brand(p: Product): string {
    p.brand
  }

  function SomeProductIn(products: seq<Product>): string -> bool {
    (session: string) => session in Map(products, Brand)
  }

  /**
   * The chips are, in the fixed session order, exactly the sessions some
   * product carries (compared exactly, without a placeholder), and each
   * shows the number of products in its session, at least one.
   */
  lemma SessionFiltersExact(products: seq<Product>, sessions: seq<string>)
    ensures Map(SessionFilters(products, sessions), LabelOf) == Filter(sessions, SomeProductIn(products))
    ensures forall f :: f in SessionFilters(products, sessions) ==>
      f.value == f.name && f.count == |Filter(products, HasBrand(f.name))| >= 1
  {
    SessionChipsInOrder(products, sessions);
    FilterKeeps(Map(sessions, SessionChip(products)), HasProducts);
  }

  lemma {:induction false} SessionChipsInOrder(products: seq<Product>, sessions: seq<string>)
    ensures Map(SessionFilters(products, sessions), LabelOf) == Filter(sessions, SomeProductIn(products))
  {
    if sessions != [] {
      var s := sessions[0];
      SessionChipsInOrder(products, sessions[1..]);
      assert Map(sessions, SessionChip(products))[1..] == Map(sessions[1..], SessionChip(products));
      SessionHasProducts(products, s);
    }
  }

  lemma SessionHasProducts(products: seq<Product>, session: string)
    ensures |Filter(products, HasBrand(session))| > 0 <==> session in Map(products, Brand)
  {
    FilterKeepsNoneIff(products, HasBrand(session));
    if session in Map(products, Brand) {
      var k :| 0 <= k < |products| && Map(products, Brand)[k] == session;
      assert products[k] in products;
    }
  }
}

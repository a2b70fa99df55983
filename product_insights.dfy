/**
 * The insight cards: counts by status and by time to expiry, the session
 * with the most products expiring within a week, the share of products
 * in normal condition and its colour, and the "stock in good condition"
 * notice. `today` is the current day number.
 */
module ProductInsights {
  import opened Wrappers
  import opened Seqs
  import opened Counting
  import opened Ranking
  import opened ProductTypes
  import opened ProductUtils

  // ---------------------------------------------------------- by status

  datatype StatusCounts = StatusCounts(normal: nat, rebaixa1: nat, rebaixa2: nat)

  /** `byStatus`: how many products carry each of the three stored statuses. */
  function ByStatus(products: seq<Product>): StatusCounts {
    StatusCounts(
      |Filter(products, HasStatus(Normal))|,
      |Filter(products, HasStatus(FirstMarkdown))|,
      |Filter(products, HasStatus(SecondMarkdown))|)
  }

  function HasKnownStatus(p: Product): bool {
    IsKnownStatus(p.status)
  }

  /**
   * No product carries two statuses, so the three counts sum to the number
   * of products with a known status: to `products.length` exactly when
   * every status is one of the three, and never more.
   */
  lemma ByStatusPartition(products: seq<Product>)
    ensures ByStatus(products).normal + ByStatus(products).rebaixa1 + ByStatus(products).rebaixa2 <= |products|
    ensures ByStatus(products).normal + ByStatus(products).rebaixa1 + ByStatus(products).rebaixa2 == |products|
        <==> forall p :: p in products ==> IsKnownStatus(p.status)
  {
    var normalOrFirst := (p: Product) => p.status == Normal || p.status == FirstMarkdown;
    FilterDisjointCount(products, HasStatus(Normal), HasStatus(FirstMarkdown), normalOrFirst);
    FilterDisjointCount(products, normalOrFirst, HasStatus(SecondMarkdown), HasKnownStatus);
    FilterKeepsAllIff(products, HasKnownStatus);
  }

  // ---------------------------------------------------------- by expiry

  datatype ExpiryCounts = ExpiryCounts(expired: nat, today: nat, thisWeek: nat, thisMonth: nat)

  function DueToday(today: int): Product -> bool {
    (p: Product) => DaysUntilExpiry(p, today) == 0
  }

  function DueThisWeek(today: int): Product -> bool {
    (p: Product) => 0 < DaysUntilExpiry(p, today) <= 7
  }

  function DueThisMonth(today: int): Product -> bool {
    (p: Product) => 7 < DaysUntilExpiry(p, today) <= 30
  }

  /** `byExpiry`: expired, due today, due in one to seven days, due in eight to thirty days. */
  function ByExpiry(products: seq<Product>, today: int): ExpiryCounts {
    ExpiryCounts(
      |Filter(products, IsExpiredOn(today))|,
      |Filter(products, DueToday(today))|,
      |Filter(products, DueThisWeek(today))|,
      |Filter(products, DueThisMonth(today))|)
  }

  function DueWithinDays(today: int, limit: int): Product -> bool {
    (p: Product) => DaysUntilExpiry(p, today) <= limit
  }

  /**
   * The four buckets are pairwise disjoint: the first three together are
   * the products due within seven days (expired ones included), all four
   * the products due within thirty, and the sum never exceeds the total.
   */
  lemma ByExpiryDisjoint(products: seq<Product>, today: int)
    ensures ByExpiry(products, today).expired + ByExpiry(products, today).today + ByExpiry(products, today).thisWeek
         == |Filter(products, DueWithinDays(today, 7))|
    ensures ByExpiry(products, today).expired + ByExpiry(products, today).today + ByExpiry(products, today).thisWeek
          + ByExpiry(products, today).thisMonth == |Filter(products, DueWithinDays(today, 30))|
    ensures ByExpiry(products, today).expired + ByExpiry(products, today).today + ByExpiry(products, today).thisWeek
          + ByExpiry(products, today).thisMonth <= |products|
  {
    FilterDisjointCount(products, IsExpiredOn(today), DueToday(today), DueWithinDays(today, 0));
    FilterDisjointCount(products, DueWithinDays(today, 0), DueThisWeek(today), DueWithinDays(today, 7));
    FilterDisjointCount(products, DueWithinDays(today, 7), DueThisMonth(today), DueWithinDays(today, 30));
  }

  // --------------------------------------------------- critical session

  /** The placeholder `criticalSession` uses for an empty session (lower-case "s", unlike the chart's). */
  const CriticalNoSession := "Sem sessão"

  function CriticalKey(p: Product): string {
    SessionKey(p.brand, CriticalNoSession)
  }

  function InCriticalSession(k: string): Product -> bool {
    (p: Product) => CriticalKey(p) == k
  }

  /** The products expiring within seven days, expired ones included. */
  function CriticalProducts(products: seq<Product>, today: int): seq<Product> {
    Filter(products, DueWithinDays(today, 7))
  }

  /** `sessionExpiring`: the critical products counted per session, in order of first appearance. */
  function CriticalCounts(products: seq<Product>, today: int): seq<(string, nat)> {
    Tally(Map(CriticalProducts(products, today), CriticalKey))
  }

  datatype SessionAlert = SessionAlert(name: string, count: nat)

  /** `criticalSession`: the first entry of the counts sorted by count, largest first; `null` when there is none. */
  function CriticalSession(products: seq<Product>, today: int): Option<SessionAlert> {
    var sorted := SortByCount(CriticalCounts(products, today));
    if sorted == [] then None else Some(SessionAlert(sorted[0].0, sorted[0].1))
  }

  /**
   * The counts are exact: the sessions are those of the critical products
   * in order of first appearance, and each count is the number of
   * critical products in that session.
   */
  lemma CriticalCountsExact(products: seq<Product>, today: int)
    ensures KeysOf(CriticalCounts(products, today)) == Dedup(Map(CriticalProducts(products, today), CriticalKey))
    ensures forall i :: 0 <= i < |CriticalCounts(products, today)| ==>
      CriticalCounts(products, today)[i].1
        == |Filter(CriticalProducts(products, today), InCriticalSession(CriticalCounts(products, today)[i].0))|
  {
    var critical := CriticalProducts(products, today);
    var counts := CriticalCounts(products, today);
    TallyEntries(Map(critical, CriticalKey));
    forall i | 0 <= i < |counts| ensures counts[i].1 == |Filter(critical, InCriticalSession(counts[i].0))| {
      FilterCountIsOcc(critical, InCriticalSession(counts[i].0), CriticalKey, counts[i].0);
    }
  }

  /** There is no critical session exactly when no product is due within seven days. */
  lemma CriticalSessionNoneIff(products: seq<Product>, today: int)
    ensures CriticalSession(products, today).None? <==> forall p :: p in products ==> DaysUntilExpiry(p, today) > 7
  {
    assert SumCounts(CriticalCounts(products, today)) == |CriticalProducts(products, today)|;
    FilterKeepsNoneIff(products, DueWithinDays(today, 7));
  }

  /**
   * Otherwise the critical session is the session with the most critical
   * products, the one appearing first among those tied for the most.
   */
  lemma CriticalSessionIsFirstMost(products: seq<Product>, today: int)
    requires CriticalSession(products, today).Some?
    ensures CriticalCounts(products, today) != []
    ensures var counts := CriticalCounts(products, today);
      var i := FirstMaxIndex(counts);
      CriticalSession(products, today) == Some(SessionAlert(counts[i].0, counts[i].1))
  {
    SortByCountHead(CriticalCounts(products, today));
  }

  // ---------------------------------------------------------- efficiency

  /**
   * `Math.round(part / whole * 100)` on exact rationals, and 0 when `whole`
   * is 0: the integer nearest to the percentage, a half rounded up.
   */
  function RoundedPercent(part: nat, whole: nat): (r: nat)
    ensures whole == 0 ==> r == 0
    ensures whole > 0 ==> -(whole as int) <= 2 * (100 * part - r * whole) < whole
    ensures part <= whole ==> r <= 100
  {
    if whole == 0 then 0
    else
      RoundingBounds(part, whole);
      (200 * part + whole) / (2 * whole)
  }

  lemma RoundingBounds(part: nat, whole: nat)
    requires whole > 0
    ensures var r := (200 * part + whole) / (2 * whole);
      && -(whole as int) <= 2 * (100 * part - r * whole) < whole
      && (part <= whole ==> r <= 100)
  {
    var a, b := 200 * part + whole, 2 * whole;
    var r, m := a / b, a % b;
    assert a == r * b + m && 0 <= m < b;
    assert r * b == 2 * (r * whole);
    if part <= whole {
      LessFromProduct(r, 101, b);
    }
  }

  lemma LessFromProduct(x: int, y: int, c: int)
    requires c > 0 && x * c < y * c
    ensures x < y
  {
  }

  /** `efficiency`: the percentage of products in normal condition, between 0 and 100. */
  function Efficiency(products: seq<Product>): (r: nat)
    ensures r <= 100
    ensures products == [] ==> r == 0
  {
    RoundedPercent(ByStatus(products).normal, |products|)
  }

  /** When every product is in normal condition the efficiency is 100. */
  lemma EfficiencyAllNormal(products: seq<Product>)
    requires products != []
    requires forall p :: p in products ==> p.status == Normal
    ensures Efficiency(products) == 100
  {
    var n, r := |products|, Efficiency(products);
    FilterKeepsAllIff(products, HasStatus(Normal));
    assert (2 * r) * n == 2 * (r * n);
    LessFromProduct(199, 2 * r, n);
    LessFromProduct(r, 101, n);
  }

  /** When no product is in normal condition the efficiency is 0. */
  lemma EfficiencyNoneNormal(products: seq<Product>)
    requires forall p :: p in products ==> p.status != Normal
    ensures Efficiency(products) == 0
  {
    FilterKeepsNoneIff(products, HasStatus(Normal));
    if products != [] {
      LessFromProduct(Efficiency(products), 1, |products|);
    }
  }

  datatype Band = Good | Fair | Poor

  /** The band the thresholds of both colour helpers describe. */
  function BandOf(eff: int): Band {
    if eff >= 80 then Good else if eff >= 60 then Fair else Poor
  }

  /** `getEfficiencyColor`. */
  function EfficiencyColor(eff: int): string {
    if eff >= 80 then "text-emerald-600"
    else if eff >= 60 then "text-amber-600"
    else "text-red-600"
  }

  /** `getEfficiencyBg`. */
  function EfficiencyBg(eff: int): string {
    if eff >= 80 then "bg-emerald-100 dark:bg-emerald-900/20"
    else if eff >= 60 then "bg-amber-100 dark:bg-amber-900/20"
    else "bg-red-100 dark:bg-red-900/20"
  }

  /**
   * Text and background always show the same band: emerald from 80,
   * amber from 60 below 80, red below 60; a higher efficiency never gets
   * a worse band.
   */
  lemma EfficiencyColorsAgree(eff: int, other: int)
    ensures EfficiencyColor(eff) == "text-emerald-600" <==> BandOf(eff) == Good
    ensures EfficiencyColor(eff) == "text-amber-600" <==> BandOf(eff) == Fair
    ensures EfficiencyColor(eff) == "text-red-600" <==> BandOf(eff) == Poor
    ensures EfficiencyBg(eff) == EfficiencyBg(other) <==> BandOf(eff) == BandOf(other)
    ensures EfficiencyColor(eff) == EfficiencyColor(other) <==> BandOf(eff) == BandOf(other)
    ensures eff <= other && BandOf(eff) == Good ==> BandOf(other) == Good
    ensures eff <= other && BandOf(other) == Poor ==> BandOf(eff) == Poor
  {
  }

  // --------------------------------------------------------------- notice

  /** The "Estoque em boa condição" notice: nothing expired, due today or due this week. */
  predicate ShowsHealthyNotice(counts: ExpiryCounts) {
    counts.expired == 0 && counts.today == 0 && counts.thisWeek == 0
  }

  /**
   * The notice appears exactly when no product is due within seven days,
   * that is exactly when there is no critical session.
   */
  lemma HealthyNoticeIff(products: seq<Product>, today: int)
    ensures ShowsHealthyNotice(ByExpiry(products, today)) <==> forall p :: p in products ==> DaysUntilExpiry(p, today) > 7
    ensures ShowsHealthyNotice(ByExpiry(products, today)) <==> CriticalSession(products, today).None?
  {
    ByExpiryDisjoint(products, today);
    CriticalSessionNoneIff(products, today);
    FilterKeepsNoneIff(products, DueWithinDays(today, 7));
  }
}

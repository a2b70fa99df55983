/**
 * The session chart: the number of products in each session, the
 * sessions in decreasing order of that number, and the largest number,
 * which scales the bars.
 */
module SessionChart {
  import opened Wrappers
  import opened Seqs
  import opened Sorting
  import opened Counting
  import opened Ranking
  import opened ProductTypes
  import opened ProductUtils

  /**
   * `sessionCounts`: one entry per session in order of first appearance,
   * a product without a session counted under "Sem Sessão" (the
   * placeholder `SessionOf` uses).
   */
  function SessionCounts(products: seq<Product>): seq<(string, nat)> {
    Tally(Sessions(products))
  }

  /**
   * Each product is counted exactly once, under its own session: the keys
   * are the distinct sessions, each count is the number of products in
   * that session and at least one, and the counts sum to `products.length`.
   */
  lemma SessionCountsExact(products: seq<Product>)
    ensures Distinct(KeysOf(SessionCounts(products)))
    ensures forall k :: k in KeysOf(SessionCounts(products)) <==> exists p :: p in products && SessionOf(p) == k
    ensures forall i :: 0 <= i < |SessionCounts(products)| ==>
      SessionCounts(products)[i].1 == |Filter(products, InSession(SessionCounts(products)[i].0))| >= 1
    ensures SumCounts(SessionCounts(products)) == |products|
  {
    var s := Sessions(products);
    var counts := SessionCounts(products);
    TallyEntries(s);
    TallyCountsPositive(s);
    DedupDistinct(s);
    forall k ensures k in KeysOf(counts) <==> exists p :: p in products && SessionOf(p) == k {
      DedupMembership(s, k);
      if k in s {
        var j :| 0 <= j < |s| && s[j] == k;
        assert products[j] in products && SessionOf(products[j]) == k;
      }
      if exists p :: p in products && SessionOf(p) == k {
        var p :| p in products && SessionOf(p) == k;
        var j :| 0 <= j < |products| && products[j] == p;
        assert s[j] == k;
      }
    }
    forall i | 0 <= i < |counts| ensures counts[i].1 == |Filter(products, InSession(counts[i].0))| {
      FilterCountIsOcc(products, InSession(counts[i].0), SessionOf, counts[i].0);
    }
  }

  /** `sortedSessions`: the count entries, largest count first. */
  function SortedSessions(products: seq<Product>): seq<(string, nat)> {
    SortByCount(SessionCounts(products))
  }

  /**
   * The sorted sessions are a permutation of the count entries in
   * non-increasing count order; sessions with equal counts keep their
   * order of first appearance.
   */
  lemma SortedSessionsOrdered(products: seq<Product>)
    ensures multiset(SortedSessions(products)) == multiset(SessionCounts(products))
    ensures forall i, j :: 0 <= i < j < |SortedSessions(products)| ==> SortedSessions(products)[j].1 <= SortedSessions(products)[i].1
    ensures forall e :: ClassOf(SortedSessions(products), e, ByCountDesc()) == ClassOf(SessionCounts(products), e, ByCountDesc())
  {
    ByCountDescIsTotalPreorder<string>();
    SortByOrderedAndStable(SessionCounts(products), ByCountDesc());
  }

  /** `maxCount`: the largest count; `None` when there are no products. */
  function ChartMaxCount(products: seq<Product>): Option<nat> {
    MaxCount(SessionCounts(products))
  }

  /**
   * With products, the largest count is the count of the first sorted
   * session, which is the earliest session with that count, so the first
   * bar is full width; without products there are no sessions to draw.
   */
  lemma ChartMaxCountIsFirstBar(products: seq<Product>)
    ensures products == [] ==> SortedSessions(products) == [] && ChartMaxCount(products) == None
    ensures products != [] ==>
      && SortedSessions(products) != []
      && ChartMaxCount(products) == Some(SortedSessions(products)[0].1)
      && SortedSessions(products)[0] == SessionCounts(products)[FirstMaxIndex(SessionCounts(products))]
  {
    if products != [] {
      assert SumCounts(SessionCounts(products)) > 0;
      MaxCountIsHead(SessionCounts(products));
      SortByCountHead(SessionCounts(products));
    }
  }
}

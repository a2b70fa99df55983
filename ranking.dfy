/**
 * Ranking count entries: `Object.entries(counts).sort(([, a], [, b]) => b - a)`
 * and `Math.max(...Object.values(counts))`. The sort is the stable sort
 * of `Sorting` with the comparator "larger count first".
 */
module Ranking {
  import opened Wrappers
  import opened Sorting

  /** `b - a <= 0` for the counts `a` of `x` and `b` of `y`. */
  function ByCountDesc<K>(): ((K, nat), (K, nat)) -> bool {
    (x: (K, nat), y: (K, nat)) => y.1 <= x.1
  }

  lemma ByCountDescIsTotalPreorder<K(!new)>()
    ensures IsTotalPreorder(ByCountDesc<K>())
  {
    KeyOrderIsTotalPreorder((e: (K, nat)) => e.1 as int, ByCountDesc<K>(), true);
  }

  /**
   * The entries, largest count first: the same entries as a multiset,
   * counts never increasing, and entries of equal count in their input
   * order.
   */
  function SortByCount<K(!new)>(entries: seq<(K, nat)>): (r: seq<(K, nat)>)
    ensures |r| == |entries|
    ensures multiset(r) == multiset(entries)
    ensures forall i, j :: 0 <= i < j < |r| ==> r[j].1 <= r[i].1
    ensures forall e :: ClassOf(r, e, ByCountDesc()) == ClassOf(entries, e, ByCountDesc())
  {
    ByCountDescIsTotalPreorder<K>();
    SortByOrderedAndStable(entries, ByCountDesc<K>());
    SortBy(entries, ByCountDesc())
  }

  /** `Math.max` of the counts; `None` for no entries, where `Math.max()` is `-Infinity`. */
  function MaxCount<K>(entries: seq<(K, nat)>): (r: Option<nat>)
    ensures r.None? <==> entries == []
    ensures r.Some? ==> forall i :: 0 <= i < |entries| ==> entries[i].1 <= r.value
  {
    if entries == [] then None
    else
      var last := entries[|entries| - 1].1;
      match MaxCount(entries[..|entries| - 1])
      case None => Some(last)
      case Some(m) => Some(if m < last then last else m)
  }

  /** Entry `i` has the largest count, and every entry before it a smaller one. */
  ghost predicate IsFirstMax<K>(entries: seq<(K, nat)>, i: nat) {
    && i < |entries|
    && (forall k :: 0 <= k < |entries| ==> entries[k].1 <= entries[i].1)
    && (forall k :: 0 <= k < i ==> entries[k].1 < entries[i].1)
  }

  /** The index of the first entry with the largest count, found without sorting. */
  function FirstMaxIndex<K>(entries: seq<(K, nat)>): (i: nat)
    requires entries != []
    ensures IsFirstMax(entries, i)
  {
    if |entries| == 1 then 0
    else
      var j := FirstMaxIndex(entries[..|entries| - 1]);
      if entries[j].1 < entries[|entries| - 1].1 then |entries| - 1 else j
  }

  /**
   * The head of the sorted entries is the first entry with the largest
   * count: the sort puts a largest count first and, being stable, keeps
   * the earliest of the tied entries in front.
   */
  lemma SortByCountHead<K(!new)>(entries: seq<(K, nat)>)
    requires entries != []
    ensures SortByCount(entries)[0] == entries[FirstMaxIndex(entries)]
  {
    var le := ByCountDesc<K>();
    var r := SortByCount(entries);
    var i := FirstMaxIndex(entries);
    var e := entries[i];
    ByCountDescIsTotalPreorder<K>();
    SortByOrderedAndStable(entries, le);
    ClassOfHead(entries, e, le, i);
    assert e in multiset(r);
    assert r[0] in multiset(entries);
    assert Equivalent(r[0], e, le);
    ClassOfHead(r, e, le, 0);
  }

  /** For non-empty input the largest count is the count of the first sorted entry. */
  lemma MaxCountIsHead<K(!new)>(entries: seq<(K, nat)>)
    requires entries != []
    ensures MaxCount(entries) == Some(SortByCount(entries)[0].1)
  {
    SortByCountHead(entries);
    MaxCountAttained(entries);
  }

  lemma {:induction false} MaxCountAttained<K>(entries: seq<(K, nat)>)
    requires entries != []
    ensures MaxCount(entries) == Some(entries[FirstMaxIndex(entries)].1)
  {
    if |entries| > 1 {
      MaxCountAttained(entries[..|entries| - 1]);
    }
  }
}

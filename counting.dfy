/**
 * Counting by key into a JavaScript object, as the source does with
 * `acc[k] = (acc[k] || 0) + 1` inside a `reduce`, and the iteration
 * order of a `Set` or of an object's keys. An object is modelled by its
 * entries in insertion order (what `Object.entries` yields for keys that
 * are not array indices).
 */
module Counting {
  import opened Seqs


  predicate Distinct<T(==)>(s: seq<T>) {
    forall i, j :: 0 <= i < j < |s| ==> s[i] != s[j]
  }

  /** The distinct elements of `s` in order of first appearance. */
  function Dedup<T(==)>(s: seq<T>): seq<T> {
    if s == [] then []
    else
      var d := Dedup(s[..|s| - 1]);
      if s[|s| - 1] in d then d else d + [s[|s| - 1]]
  }

  /** One more element joins the end of the distinct elements unless it is already among them. */
  lemma DedupSnoc<T>(s: seq<T>, x: T)
    ensures Dedup(s + [x]) == if x in Dedup(s) then Dedup(s) else Dedup(s) + [x]
  {
    assert (s + [x])[..|s|] == s;
  }

  lemma {:induction false} DedupMembership<T>(s: seq<T>, x: T)
    ensures x in Dedup(s) <==> x in s
  {
    if s != [] {
      var init := s[..|s| - 1];
      DedupMembership(init, x);
      assert s == init + [s[|s| - 1]];
    }
  }

  lemma {:induction false} DedupDistinct<T>(s: seq<T>)
    ensures Distinct(Dedup(s))
  {
    if s != [] {
      DedupDistinct(s[..|s| - 1]);
    }
  }

  /** The number of occurrences of `x` in `s`. */
  function Occ<T(==)>(s: seq<T>, x: T): nat {
    if s == [] then 0 else Occ(s[..|s| - 1], x) + (if s[|s| - 1] == x then 1 else 0)
  }

  lemma {:induction false} OccPositive<T>(s: seq<T>, x: T)
    ensures Occ(s, x) > 0 <==> x in s
  {
    if s != [] {
      OccPositive(s[..|s| - 1], x);
      assert x in s <==> x in s[..|s| - 1] || x == s[|s| - 1];
    }
  }

  function KeysOf<K>(entries: seq<(K, nat)>): (r: seq<K>)
    ensures |r| == |entries|
    ensures forall i :: 0 <= i < |entries| ==> r[i] == entries[i].0
  {
    if entries == [] then [] else [entries[0].0] + KeysOf(entries[1..])
  }

  function SumCounts<K>(entries: seq<(K, nat)>): nat {
    if entries == [] then 0 else entries[0].1 + SumCounts(entries[1..])
  }

  /** `acc[k] = (acc[k] || 0) + 1`: raise the count of `k`, or add `k` with count 1 at the end. */
  function Bump<K(==)>(acc: seq<(K, nat)>, k: K): (r: seq<(K, nat)>)
    ensures SumCounts(r) == SumCounts(acc) + 1
  {
    if acc == [] then [(k, 1)]
    else if acc[0].0 == k then [(k, acc[0].1 + 1)] + acc[1..]
    else
      var rest := Bump(acc[1..], k);
      assert ([acc[0]] + rest)[1..] == rest;
      [acc[0]] + rest
  }

  /** `s.reduce((acc, k) => { acc[k] = (acc[k] || 0) + 1; return acc }, {})`. */
  function Tally<K(==)>(s: seq<K>): (r: seq<(K, nat)>)
    ensures SumCounts(r) == |s|
  {
    if s == [] then [] else Bump(Tally(s[..|s| - 1]), s[|s| - 1])
  }

  function Raised<K(==)>(e: (K, nat), k: K): (K, nat) {
    if e.0 == k then (e.0, e.1 + 1) else e
  }

  lemma {:induction false} BumpPresent<K>(acc: seq<(K, nat)>, k: K)
    requires Distinct(KeysOf(acc))
    requires k in KeysOf(acc)
    ensures |Bump(acc, k)| == |acc|
    ensures forall i :: 0 <= i < |acc| ==> Bump(acc, k)[i] == Raised(acc[i], k)
  {
    var keys := KeysOf(acc);
    var r := Bump(acc, k);
    KeysOfTail(acc);
    DistinctTail(keys);
    if acc[0].0 == k {
      assert r == [(k, acc[0].1 + 1)] + acc[1..];
      forall i | 1 <= i < |acc| ensures r[i] == Raised(acc[i], k) {
        assert keys[i] in keys[1..];
      }
    } else {
      assert k in keys[1..];
      BumpPresent(acc[1..], k);
      var rest := Bump(acc[1..], k);
      assert r == [acc[0]] + rest;
      forall i | 0 <= i < |acc| ensures r[i] == Raised(acc[i], k) {
        if i > 0 {
          assert r[i] == rest[i - 1];
        }
      }
    }
  }

  lemma KeysOfTail<K>(acc: seq<(K, nat)>)
    requires acc != []
    ensures KeysOf(acc[1..]) == KeysOf(acc)[1..]
  {
  }

  lemma DistinctTail<T>(s: seq<T>)
    requires s != [] && Distinct(s)
    ensures Distinct(s[1..]) && s[0] !in s[1..]
  {
    assert forall i :: 0 <= i < |s| - 1 ==> s[1..][i] == s[i + 1];
  }

  lemma {:induction false} BumpAbsent<K>(acc: seq<(K, nat)>, k: K)
    requires k !in KeysOf(acc)
    ensures Bump(acc, k) == acc + [(k, 1)]
  {
    if acc != [] {
      assert KeysOf(acc) == [acc[0].0] + KeysOf(acc[1..]);
      BumpAbsent(acc[1..], k);
    }
  }

  /**
   * The tally lists each distinct key once, in order of first appearance,
   * with the number of times it occurs.
   */
  lemma {:induction false} TallyEntries<K>(s: seq<K>)
    ensures KeysOf(Tally(s)) == Dedup(s)
    ensures forall i :: 0 <= i < |Tally(s)| ==> Tally(s)[i].1 == Occ(s, Tally(s)[i].0)
  {
    if s != [] {
      var init, x := s[..|s| - 1], s[|s| - 1];
      TallyEntries(init);
      assert init + [x] == s;
      TallyStep(Tally(init), init, x);
    }
  }

  lemma TallyStep<K>(prev: seq<(K, nat)>, init: seq<K>, x: K)
    requires KeysOf(prev) == Dedup(init)
    requires forall i :: 0 <= i < |prev| ==> prev[i].1 == Occ(init, prev[i].0)
    ensures KeysOf(Bump(prev, x)) == Dedup(init + [x])
    ensures forall i :: 0 <= i < |Bump(prev, x)| ==>
      Bump(prev, x)[i].1 == Occ(init + [x], Bump(prev, x)[i].0)
  {
    DedupSnoc(init, x);
    if x in Dedup(init) {
      TallyStepPresent(prev, init, x);
    } else {
      TallyStepAbsent(prev, init, x);
    }
  }

  lemma TallyStepPresent<K>(prev: seq<(K, nat)>, init: seq<K>, x: K)
    requires KeysOf(prev) == Dedup(init)
    requires forall i :: 0 <= i < |prev| ==> prev[i].1 == Occ(init, prev[i].0)
    requires x in KeysOf(prev)
    ensures KeysOf(Bump(prev, x)) == KeysOf(prev)
    ensures forall i :: 0 <= i < |Bump(prev, x)| ==>
      Bump(prev, x)[i].1 == Occ(init + [x], Bump(prev, x)[i].0)
  {
    DedupDistinct(init);
    BumpPresent(prev, x);
    var r := Bump(prev, x);
    forall i | 0 <= i < |r| ensures r[i].0 == prev[i].0 && r[i].1 == Occ(init + [x], r[i].0) {
      assert r[i] == Raised(prev[i], x);
      OccAppend(init, x, prev[i].0);
    }
  }

  lemma TallyStepAbsent<K>(prev: seq<(K, nat)>, init: seq<K>, x: K)
    requires KeysOf(prev) == Dedup(init)
    requires forall i :: 0 <= i < |prev| ==> prev[i].1 == Occ(init, prev[i].0)
    requires x !in KeysOf(prev)
    ensures KeysOf(Bump(prev, x)) == KeysOf(prev) + [x]
    ensures forall i :: 0 <= i < |Bump(prev, x)| ==>
      Bump(prev, x)[i].1 == Occ(init + [x], Bump(prev, x)[i].0)
  {
    BumpAbsent(prev, x);
    var r := Bump(prev, x);
    assert r == prev + [(x, 1)];
    DedupMembership(init, x);
    OccPositive(init, x);
    forall i | 0 <= i < |r| ensures r[i].1 == Occ(init + [x], r[i].0) {
      OccAppend(init, x, r[i].0);
      if i < |prev| {
        assert r[i] == prev[i];
        assert prev[i].0 == KeysOf(prev)[i];
      }
    }
  }

  lemma OccAppend<K>(init: seq<K>, x: K, y: K)
    ensures Occ(init + [x], y) == Occ(init, y) + (if x == y then 1 else 0)
  {
    assert (init + [x])[..|init|] == init;
  }

  /** Every tallied key occurs at least once. */
  lemma TallyCountsPositive<K>(s: seq<K>)
    ensures forall i :: 0 <= i < |Tally(s)| ==> Tally(s)[i].1 >= 1
  {
    TallyEntries(s);
    forall i | 0 <= i < |Tally(s)| ensures Tally(s)[i].1 >= 1 {
      assert KeysOf(Tally(s))[i] in Dedup(s);
      DedupMembership(s, Tally(s)[i].0);
      OccPositive(s, Tally(s)[i].0);
    }
  }

  /** Filtering by a key counts that key's occurrences among the mapped keys. */
  lemma {:induction false} FilterCountIsOcc<T, K>(s: seq<T>, f: T -> bool, key: T -> K, k: K)
    requires forall x :: f(x) == (key(x) == k)
    ensures |Filter(s, f)| == Occ(Map(s, key), k)
  {
    if s != [] {
      var init := s[..|s| - 1];
      FilterCountIsOcc(init, f, key, k);
      assert s == init + [s[|s| - 1]];
      FilterAppend(init, [s[|s| - 1]], f);
      assert Map(s, key)[..|s| - 1] == Map(init, key);
    }
  }
}

/**
 * `Array.prototype.filter` and the facts about it that the filters,
 * counters and list updaters of the pipeline share.
 */
module Seqs {

  /** `s.filter(f)`: the elements satisfying `f`, in their original order. */
  function Filter<T>(s: seq<T>, f: T -> bool): (r: seq<T>)
    ensures |r| <= |s|
    ensures forall k :: 0 <= k < |r| ==> f(r[k])
  {
    if s == [] then [] else (if f(s[0]) then [s[0]] else []) + Filter(s[1..], f)
  }

  /** `r` is obtained from `s` by deleting elements, keeping the order of the rest. */
  predicate IsSubsequence<T(==)>(r: seq<T>, s: seq<T>)
    decreases |s|
  {
    r == [] || (s != [] && ((r[0] == s[0] && IsSubsequence(r[1..], s[1..])) || IsSubsequence(r, s[1..])))
  }

  lemma {:induction false} FilterIsSubsequence<T>(s: seq<T>, f: T -> bool)
    ensures IsSubsequence(Filter(s, f), s)
  {
    if s != [] {
      FilterIsSubsequence(s[1..], f);
      if f(s[0]) {
        assert Filter(s, f) == [s[0]] + Filter(s[1..], f);
        assert Filter(s, f)[1..] == Filter(s[1..], f);
      } else {
        assert Filter(s, f) == Filter(s[1..], f);
      }
    }
  }

  /** An element is kept exactly when it is in the input and satisfies the predicate. */
  lemma {:induction false} FilterMembership<T>(s: seq<T>, f: T -> bool, x: T)
    ensures x in Filter(s, f) <==> x in s && f(x)
  {
    if s != [] {
      FilterMembership(s[1..], f, x);
      assert s == [s[0]] + s[1..];
    }
  }

  /** `FilterMembership` for every element at once. */
  lemma FilterKeeps<T>(s: seq<T>, f: T -> bool)
    ensures forall x :: x in Filter(s, f) <==> x in s && f(x)
  {
    forall x ensures x in Filter(s, f) <==> x in s && f(x) {
      FilterMembership(s, f, x);
    }
  }

  lemma {:induction false} SubsequenceRefl<T>(s: seq<T>)
    ensures IsSubsequence(s, s)
  {
    if s != [] {
      SubsequenceRefl(s[1..]);
    }
  }

  lemma {:induction false} FilterAppend<T>(a: seq<T>, b: seq<T>, f: T -> bool)
    ensures Filter(a + b, f) == Filter(a, f) + Filter(b, f)
  {
    if a != [] {
      assert (a + b)[1..] == a[1..] + b;
      FilterAppend(a[1..], b, f);
    } else {
      assert a + b == b;
    }
  }

  /** A filter that keeps everything is the identity. */
  lemma {:induction false} FilterAll<T>(s: seq<T>, f: T -> bool)
    requires forall k :: 0 <= k < |s| ==> f(s[k])
    ensures Filter(s, f) == s
  {
    if s != [] {
      FilterAll(s[1..], f);
    }
  }

  /** Filtering twice is filtering once by the conjunction. */
  lemma {:induction false} FilterFilter<T>(s: seq<T>, f: T -> bool, g: T -> bool, h: T -> bool)
    requires forall x :: h(x) == (f(x) && g(x))
    ensures Filter(Filter(s, f), g) == Filter(s, h)
  {
    if s != [] {
      FilterFilter(s[1..], f, g, h);
      if f(s[0]) {
        var fs := Filter(s, f);
        assert fs == [s[0]] + Filter(s[1..], f);
        assert fs[0] == s[0] && fs[1..] == Filter(s[1..], f);
        assert Filter(fs, g) == (if g(s[0]) then [s[0]] else []) + Filter(fs[1..], g);
      } else {
        assert Filter(s, f) == Filter(s[1..], f);
      }
    }
  }

  /** A filter keeps the whole input exactly when every element satisfies it. */
  lemma {:induction false} FilterKeepsAllIff<T>(s: seq<T>, f: T -> bool)
    ensures |Filter(s, f)| == |s| <==> forall x :: x in s ==> f(x)
  {
    if s != [] {
      FilterKeepsAllIff(s[1..], f);
      assert forall x :: x in s <==> x == s[0] || x in s[1..];
    }
  }

  /** A filter keeps nothing exactly when no element satisfies it. */
  lemma {:induction false} FilterKeepsNoneIff<T>(s: seq<T>, f: T -> bool)
    ensures Filter(s, f) == [] <==> forall x :: x in s ==> !f(x)
  {
    if s != [] {
      FilterKeepsNoneIff(s[1..], f);
      assert forall x :: x in s <==> x == s[0] || x in s[1..];
    }
  }

  /** Two filters commute. */
  lemma FilterCommutes<T>(s: seq<T>, f: T -> bool, g: T -> bool)
    ensures Filter(Filter(s, f), g) == Filter(Filter(s, g), f)
  {
    var h := (x: T) => f(x) && g(x);
    FilterFilter(s, f, g, h);
    FilterFilter(s, g, f, h);
  }

  /** Two filters that never keep the same element together keep as many as their disjunction. */
  lemma {:induction false} FilterDisjointCount<T>(s: seq<T>, f: T -> bool, g: T -> bool, h: T -> bool)
    requires forall x :: !(f(x) && g(x))
    requires forall x :: h(x) == (f(x) || g(x))
    ensures |Filter(s, f)| + |Filter(s, g)| == |Filter(s, h)|
  {
    if s != [] {
      FilterDisjointCount(s[1..], f, g, h);
    }
  }

  /** `s.map(m)`. */
  function Map<T, U>(s: seq<T>, m: T -> U): (r: seq<U>)
    ensures |r| == |s|
    ensures forall k :: 0 <= k < |s| ==> r[k] == m(s[k])
  {
    if s == [] then [] else [m(s[0])] + Map(s[1..], m)
  }

  lemma MapSnoc<T, U>(s: seq<T>, x: T, m: T -> U)
    ensures Map(s + [x], m) == Map(s, m) + [m(x)]
  {
  }

  /** Under an injective map, an image is in the mapped sequence exactly when its preimage is in the input. */
  lemma MapInjectiveMembership<T, U>(s: seq<T>, m: T -> U, x: T)
    requires forall a, b :: m(a) == m(b) ==> a == b
    ensures m(x) in Map(s, m) <==> x in s
  {
    if m(x) in Map(s, m) {
      var k :| 0 <= k < |s| && Map(s, m)[k] == m(x);
      assert s[k] == x;
    }
    if x in s {
      var k :| 0 <= k < |s| && s[k] == x;
      assert Map(s, m)[k] == m(x);
    }
  }

  /** `s.flatMap(f)`: the sequences `f` gives for the elements, one after another. */
  function FlatMap<T, U>(s: seq<T>, f: T -> seq<U>): seq<U> {
    if s == [] then [] else FlatMap(s[..|s| - 1], f) + f(s[|s| - 1])
  }

  lemma FlatMapStep<T, U>(s: seq<T>, i: nat, f: T -> seq<U>)
    requires i < |s|
    ensures FlatMap(s[..i + 1], f) == FlatMap(s[..i], f) + f(s[i])
  {
    assert s[..i + 1][..i] == s[..i];
  }

  /** An element is in the flattened sequence exactly when it comes from some element of `s`. */
  lemma {:induction false} FlatMapMembership<T, U>(s: seq<T>, f: T -> seq<U>, x: U)
    ensures x in FlatMap(s, f) <==> exists e :: e in s && x in f(e)
  {
    if s != [] {
      var init, last := s[..|s| - 1], s[|s| - 1];
      FlatMapMembership(init, f, x);
      assert s == init + [last];
      if x in FlatMap(init, f) {
        var e :| e in init && x in f(e);
        assert e in s;
      }
      if exists e :: e in s && x in f(e) {
        var e :| e in s && x in f(e);
        assert e in init || e == last;
      }
    }
  }

  /** Three filters that between them keep every element exactly once share out the whole input. */
  lemma {:induction false} FilterPartition3<T>(s: seq<T>, f: T -> bool, g: T -> bool, h: T -> bool)
    requires forall x :: (f(x) || g(x) || h(x)) && !(f(x) && g(x)) && !(f(x) && h(x)) && !(g(x) && h(x))
    ensures |Filter(s, f)| + |Filter(s, g)| + |Filter(s, h)| == |s|
  {
    if s != [] {
      FilterPartition3(s[1..], f, g, h);
    }
  }
}

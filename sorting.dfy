/**
 * `Array.prototype.sort` with a consistent comparator. Since ES2019 the
 * sort is stable, so the result is determined by the comparator alone:
 * it is the unique permutation that is ordered and keeps the input order
 * among elements the comparator calls equal. `SortBy` is that sort, by
 * insertion; `le(a, b)` stands for `cmp(a, b) <= 0`.
 */
module Sorting {

  /** The comparator is consistent: every two elements compare, and comparison is transitive. */
  ghost predicate IsTotalPreorder<T(!new)>(le: (T, T) -> bool) {
    && (forall a, b :: le(a, b) || le(b, a))
    && (forall a, b, c :: le(a, b) && le(b, c) ==> le(a, c))
  }

  ghost predicate SortedBy<T>(s: seq<T>, le: (T, T) -> bool) {
    forall i, j :: 0 <= i < j < |s| ==> le(s[i], s[j])
  }

  /** `x` is placed before the first element it does not follow. */
  function Insert<T>(x: T, s: seq<T>, le: (T, T) -> bool): (r: seq<T>)
    ensures |r| == |s| + 1
    ensures multiset(r) == multiset(s) + multiset{x}
  {
    if s == [] || le(x, s[0]) then [x] + s
    else
      var rest := Insert(x, s[1..], le);
      assert s == [s[0]] + s[1..];
      [s[0]] + rest
  }

  /** `[...s].sort(cmp)`: a new sequence holding the same elements. */
  function SortBy<T>(s: seq<T>, le: (T, T) -> bool): (r: seq<T>)
    ensures |r| == |s|
    ensures multiset(r) == multiset(s)
  {
    if s == [] then []
    else
      var rest := SortBy(s[1..], le);
      assert s == [s[0]] + s[1..];
      Insert(s[0], rest, le)
  }

  lemma {:induction false} InsertSorted<T(!new)>(x: T, s: seq<T>, le: (T, T) -> bool)
    requires IsTotalPreorder(le)
    requires SortedBy(s, le)
    ensures SortedBy(Insert(x, s, le), le)
  {
    var r := Insert(x, s, le);
    if s == [] || le(x, s[0]) {
      assert r == [x] + s;
    } else {
      var rest := Insert(x, s[1..], le);
      InsertSorted(x, s[1..], le);
      assert r == [s[0]] + rest;
      forall j | 0 <= j < |rest| ensures le(s[0], rest[j]) {
        assert rest[j] in multiset(rest);
        if rest[j] != x {
          assert rest[j] in multiset(s[1..]);
          var k :| 0 <= k < |s[1..]| && s[1..][k] == rest[j];
          assert s[k + 1] == rest[j];
        }
      }
    }
  }

  /** The sorted sequence is ordered by the comparator. */
  lemma {:induction false} SortBySorted<T(!new)>(s: seq<T>, le: (T, T) -> bool)
    requires IsTotalPreorder(le)
    ensures SortedBy(SortBy(s, le), le)
  {
    if s != [] {
      SortBySorted(s[1..], le);
      InsertSorted(s[0], SortBy(s[1..], le), le);
    }
  }

  ghost predicate Equivalent<T>(a: T, b: T, le: (T, T) -> bool) {
    le(a, b) && le(b, a)
  }

  /** The elements of `s` that the comparator calls equal to `e`, in their order in `s`. */
  ghost function ClassOf<T>(s: seq<T>, e: T, le: (T, T) -> bool): seq<T> {
    if s == [] then [] else (if Equivalent(s[0], e, le) then [s[0]] else []) + ClassOf(s[1..], e, le)
  }

  /** Whatever is equivalent to `e` follows `x` whenever `x` itself is equivalent to `e`. */
  ghost predicate LeadsItsClass<T(!new)>(x: T, e: T, le: (T, T) -> bool) {
    forall y :: Equivalent(x, e, le) && Equivalent(y, e, le) ==> le(x, y)
  }

  lemma {:induction false} InsertClass<T(!new)>(x: T, s: seq<T>, le: (T, T) -> bool, e: T)
    requires LeadsItsClass(x, e, le)
    ensures ClassOf(Insert(x, s, le), e, le) == (if Equivalent(x, e, le) then [x] else []) + ClassOf(s, e, le)
  {
    if s == [] || le(x, s[0]) {
      ClassOfCons(x, s, e, le);
    } else {
      InsertClass(x, s[1..], le, e);
      InsertClassSkip(x, s, le, e);
    }
  }

  /** The step of `InsertClass` where `x` passes over the head of `s`. */
  lemma InsertClassSkip<T(!new)>(x: T, s: seq<T>, le: (T, T) -> bool, e: T)
    requires LeadsItsClass(x, e, le)
    requires s != [] && !le(x, s[0])
    requires ClassOf(Insert(x, s[1..], le), e, le) == (if Equivalent(x, e, le) then [x] else []) + ClassOf(s[1..], e, le)
    ensures ClassOf(Insert(x, s, le), e, le) == (if Equivalent(x, e, le) then [x] else []) + ClassOf(s, e, le)
  {
    var rest := Insert(x, s[1..], le);
    var c1 := ClassOf(s[1..], e, le);
    var px := if Equivalent(x, e, le) then [x] else [];
    var p0 := if Equivalent(s[0], e, le) then [s[0]] else [];
    assert ClassOf(Insert(x, s, le), e, le) == p0 + (px + c1) by {
      assert Insert(x, s, le) == [s[0]] + rest;
      ClassOfCons(s[0], rest, e, le);
    }
    assert ClassOf(s, e, le) == p0 + c1;
    assert px == [] || p0 == [] by {
      assert !(Equivalent(x, e, le) && Equivalent(s[0], e, le));
    }
    Rearrange(ClassOf(Insert(x, s, le), e, le), ClassOf(s, e, le), px, p0, c1);
  }

  lemma Rearrange<T>(l: seq<T>, r: seq<T>, px: seq<T>, p0: seq<T>, c1: seq<T>)
    requires l == p0 + (px + c1) && r == p0 + c1
    requires px == [] || p0 == []
    ensures l == px + r
  {
  }

  lemma ClassOfCons<T>(x: T, s: seq<T>, e: T, le: (T, T) -> bool)
    ensures ClassOf([x] + s, e, le) == (if Equivalent(x, e, le) then [x] else []) + ClassOf(s, e, le)
  {
    assert ([x] + s)[1..] == s;
  }

  lemma PreorderLeadsItsClass<T(!new)>(x: T, e: T, le: (T, T) -> bool)
    requires IsTotalPreorder(le)
    ensures LeadsItsClass(x, e, le)
  {
    forall y | Equivalent(x, e, le) && Equivalent(y, e, le) ensures le(x, y) {
      assert le(x, e) && le(e, y);
    }
  }

  /** Stability: among elements the comparator calls equal, the input order is kept. */
  lemma {:induction false} SortByStable<T(!new)>(s: seq<T>, le: (T, T) -> bool, e: T)
    requires IsTotalPreorder(le)
    ensures ClassOf(SortBy(s, le), e, le) == ClassOf(s, e, le)
  {
    if s != [] {
      SortByStable(s[1..], le, e);
      PreorderLeadsItsClass(s[0], e, le);
      InsertClass(s[0], SortBy(s[1..], le), le, e);
    }
  }

  /** The sort is ordered and stable in every equivalence class at once. */
  lemma SortByOrderedAndStable<T(!new)>(s: seq<T>, le: (T, T) -> bool)
    requires IsTotalPreorder(le)
    ensures SortedBy(SortBy(s, le), le)
    ensures forall e :: ClassOf(SortBy(s, le), e, le) == ClassOf(s, e, le)
  {
    SortBySorted(s, le);
    forall e ensures ClassOf(SortBy(s, le), e, le) == ClassOf(s, e, le) {
      SortByStable(s, le, e);
    }
  }

  /** The first element of a class is the first element of `s` in that class. */
  lemma {:induction false} ClassOfHead<T>(s: seq<T>, e: T, le: (T, T) -> bool, i: nat)
    requires i < |s| && Equivalent(s[i], e, le)
    requires forall k :: 0 <= k < i ==> !Equivalent(s[k], e, le)
    ensures ClassOf(s, e, le) != [] && ClassOf(s, e, le)[0] == s[i]
  {
    if i > 0 {
      forall k | 0 <= k < i - 1 ensures !Equivalent(s[1..][k], e, le) {
        assert s[1..][k] == s[k + 1];
      }
      ClassOfHead(s[1..], e, le, i - 1);
    }
  }

  /** The comparator on a numeric key, ascending (`key(a) - key(b)`) or descending (`key(b) - key(a)`). */
  lemma KeyOrderIsTotalPreorder<T(!new)>(key: T -> int, le: (T, T) -> bool, descending: bool)
    requires forall a, b :: le(a, b) == if descending then key(b) <= key(a) else key(a) <= key(b)
    ensures IsTotalPreorder(le)
  {
  }
}

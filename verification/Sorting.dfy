/** The stable sort by a numeric key that Rust's `sort_by_key` performs. */
module Sorting {

  function Insert<T>(x: T, s: seq<T>, key: T -> nat): seq<T> {
    if s == [] then [x]
    else if key(x) <= key(s[0]) then [x] + s
    else [s[0]] + Insert(x, s[1..], key)
  }

  function SortByKey<T>(s: seq<T>, key: T -> nat): seq<T> {
    if s == [] then [] else Insert(s[0], SortByKey(s[1..], key), key)
  }

  predicate SortedByKey<T>(s: seq<T>, key: T -> nat) {
    forall i, j :: 0 <= i < j < |s| ==> key(s[i]) <= key(s[j])
  }

  /** The elements with key `k`, in their order. */
  function WithKey<T>(s: seq<T>, key: T -> nat, k: nat): seq<T> {
    if s == [] then []
    else (if key(s[0]) == k then [s[0]] else []) + WithKey(s[1..], key, k)
  }

  lemma {:induction false} InsertElements<T>(x: T, s: seq<T>, key: T -> nat)
    ensures multiset(Insert(x, s, key)) == multiset(s) + multiset{x}
  {
    if s != [] {
      assert s == [s[0]] + s[1..];
      if key(x) > key(s[0]) {
        InsertElements(x, s[1..], key);
      }
    }
  }

  lemma {:induction false} InsertKeepsOrder<T>(x: T, s: seq<T>, key: T -> nat)
    requires SortedByKey(s, key)
    ensures SortedByKey(Insert(x, s, key), key)
  {
    if s != [] && key(x) > key(s[0]) {
      var t := Insert(x, s[1..], key);
      InsertKeepsOrder(x, s[1..], key);
      InsertElements(x, s[1..], key);
      forall i | 0 <= i < |t| ensures key(s[0]) <= key(t[i]) {
        assert t[i] in multiset(t);
        assert t[i] == x || t[i] in s[1..];
      }
      Prepended(s[0], t, key);
    } else if s != [] {
      Prepended(x, s, key);
    }
  }

  lemma Prepended<T>(x: T, t: seq<T>, key: T -> nat)
    requires SortedByKey(t, key)
    requires forall i :: 0 <= i < |t| ==> key(x) <= key(t[i])
    ensures SortedByKey([x] + t, key)
  {
  }

  lemma {:induction false} InsertKeepsClasses<T>(x: T, s: seq<T>, key: T -> nat, k: nat)
    ensures WithKey(Insert(x, s, key), key, k) == (if key(x) == k then [x] else []) + WithKey(s, key, k)
  {
    if s != [] {
      if key(x) <= key(s[0]) {
        assert ([x] + s)[1..] == s;
      } else {
        var t := Insert(x, s[1..], key);
        assert ([s[0]] + t)[1..] == t;
        InsertKeepsClasses(x, s[1..], key, k);
      }
    }
  }

  /** Sorted, a permutation, and stable: equal keys keep their relative order. */
  lemma {:induction false} SortByKeyCorrect<T>(s: seq<T>, key: T -> nat)
    ensures SortedByKey(SortByKey(s, key), key)
    ensures multiset(SortByKey(s, key)) == multiset(s)
    ensures forall k: nat :: WithKey(SortByKey(s, key), key, k) == WithKey(s, key, k)
  {
    if s != [] {
      SortByKeyCorrect(s[1..], key);
      InsertKeepsOrder(s[0], SortByKey(s[1..], key), key);
      InsertElements(s[0], SortByKey(s[1..], key), key);
      assert s == [s[0]] + s[1..];
      forall k: nat ensures WithKey(SortByKey(s, key), key, k) == WithKey(s, key, k) {
        InsertKeepsClasses(s[0], SortByKey(s[1..], key), key, k);
      }
    }
  }

  predicate Distinct<T(==)>(s: seq<T>) {
    forall i, j :: 0 <= i < j < |s| ==> s[i] != s[j]
  }

  lemma {:induction false} InsertKeepsDistinct<T>(x: T, s: seq<T>, key: T -> nat)
    requires Distinct(s) && x !in s
    ensures Distinct(Insert(x, s, key))
  {
    if s != [] && key(x) > key(s[0]) {
      InsertKeepsDistinct(x, s[1..], key);
      InsertElements(x, s[1..], key);
      var t := Insert(x, s[1..], key);
      forall i | 0 <= i < |t| ensures t[i] != s[0] {
        assert t[i] in multiset(t);
        assert t[i] == x || t[i] in s[1..];
      }
    }
  }

  lemma {:induction false} SortKeepsDistinct<T>(s: seq<T>, key: T -> nat)
    requires Distinct(s)
    ensures Distinct(SortByKey(s, key))
  {
    if s != [] {
      SortKeepsDistinct(s[1..], key);
      SortByKeyCorrect(s[1..], key);
      assert s[0] in SortByKey(s[1..], key) <==> s[0] in multiset(SortByKey(s[1..], key));
      InsertKeepsDistinct(s[0], SortByKey(s[1..], key), key);
    }
  }
}

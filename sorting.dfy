/** Python's `sorted(s, key=key)` for a numeric key: an ascending sort that
    is stable, so elements with equal keys keep their input order. */
module Sorting {

  predicate SortedBy<T>(s: seq<T>, key: T -> real)
  {
    forall i, j :: 0 <= i < j < |s| ==> key(s[i]) <= key(s[j])
  }

  /** Puts `x` in front of the first element whose key is not smaller than
      its own, so `x` stays ahead of the elements with an equal key. */
  function InsertByKey<T>(x: T, r: seq<T>, key: T -> real): seq<T>
  {
    if r == [] || key(x) <= key(r[0]) then [x] + r
    else [r[0]] + InsertByKey(x, r[1..], key)
  }

  /** Python's `sorted(s, key=key)`. */
  function SortByKey<T>(s: seq<T>, key: T -> real): seq<T>
  {
    if s == [] then [] else InsertByKey(s[0], SortByKey(s[1..], key), key)
  }

  /** The elements of `s` whose key is `v`, in their order in `s`. */
  function WithKey<T>(s: seq<T>, key: T -> real, v: real): seq<T>
  {
    if s == [] then [] else (if key(s[0]) == v then [s[0]] else []) + WithKey(s[1..], key, v)
  }

  /** Inserting adds `x` and loses nothing. */
  lemma {:induction false} InsertByKeyPermutes<T>(x: T, r: seq<T>, key: T -> real)
    ensures multiset(InsertByKey(x, r, key)) == multiset(r) + multiset{x}
  {
    if !(r == [] || key(x) <= key(r[0])) {
      InsertByKeyPermutes(x, r[1..], key);
      assert r == [r[0]] + r[1..];
    }
  }

  /** A lower bound of `x` and of every element of `r` bounds the result. */
  lemma {:induction false} InsertByKeyBounded<T>(x: T, r: seq<T>, key: T -> real, b: real)
    requires b <= key(x) && forall i :: 0 <= i < |r| ==> b <= key(r[i])
    ensures forall i :: 0 <= i < |InsertByKey(x, r, key)| ==> b <= key(InsertByKey(x, r, key)[i])
  {
    if !(r == [] || key(x) <= key(r[0])) {
      InsertByKeyBounded(x, r[1..], key, b);
    }
  }

  /** Inserting into an ascending sequence keeps it ascending. */
  lemma {:induction false} InsertByKeySorted<T>(x: T, r: seq<T>, key: T -> real)
    requires SortedBy(r, key)
    ensures SortedBy(InsertByKey(x, r, key), key)
  {
    if !(r == [] || key(x) <= key(r[0])) {
      var rest := InsertByKey(x, r[1..], key);
      InsertByKeySorted(x, r[1..], key);
      InsertByKeyBounded(x, r[1..], key, key(r[0]));
      var out := [r[0]] + rest;
      forall i, j | 0 <= i < j < |out| ensures key(out[i]) <= key(out[j]) {
        assert out[j] == rest[j - 1];
        if i > 0 {
          assert out[i] == rest[i - 1];
        }
      }
    }
  }

  /** The result is ascending and holds exactly the input's elements. */
  lemma {:induction false} SortByKeyOrdersAndPermutes<T>(s: seq<T>, key: T -> real)
    ensures SortedBy(SortByKey(s, key), key)
    ensures multiset(SortByKey(s, key)) == multiset(s)
  {
    if s != [] {
      SortByKeyOrdersAndPermutes(s[1..], key);
      InsertByKeySorted(s[0], SortByKey(s[1..], key), key);
      InsertByKeyPermutes(s[0], SortByKey(s[1..], key), key);
      assert s == [s[0]] + s[1..];
    }
  }

  lemma {:induction false} WithKeyOfInsert<T>(x: T, r: seq<T>, key: T -> real, v: real)
    ensures WithKey(InsertByKey(x, r, key), key, v)
         == (if key(x) == v then [x] else []) + WithKey(r, key, v)
  {
    if r == [] || key(x) <= key(r[0]) {
      assert ([x] + r)[1..] == r;
    } else {
      WithKeyOfInsert(x, r[1..], key, v);
      var out := [r[0]] + InsertByKey(x, r[1..], key);
      assert out[1..] == InsertByKey(x, r[1..], key);
    }
  }

  /** Stability: for every key value, the elements carrying it come out in
      their input order. */
  lemma {:induction false} SortByKeyStable<T>(s: seq<T>, key: T -> real, v: real)
    ensures WithKey(SortByKey(s, key), key, v) == WithKey(s, key, v)
  {
    if s != [] {
      SortByKeyStable(s[1..], key, v);
      WithKeyOfInsert(s[0], SortByKey(s[1..], key), key, v);
    }
  }
}

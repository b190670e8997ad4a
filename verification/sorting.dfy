/** `Array.prototype.sort` with a numeric comparator, which JavaScript
    guarantees to be stable. Modelled once, as an insertion sort that
    orders by an integer key, largest key first; an ascending sort is a
    descending sort on the negated key. */
module StableSort {

  predicate SortedDesc<T>(s: seq<T>, key: T -> int)
  {
    forall i, j :: 0 <= i < j < |s| ==> key(s[i]) >= key(s[j])
  }

  /** The elements of `s` whose key is `k`, in their order in `s`. */
  function WithKey<T>(s: seq<T>, key: T -> int, k: int): seq<T>
  {
    if s == [] then []
    else (if key(s[0]) == k then [s[0]] else []) + WithKey(s[1..], key, k)
  }

  /** Puts `x` in front of the first element whose key is not larger, so
      that `x` precedes the elements with its own key. */
  function Insert<T>(x: T, s: seq<T>, key: T -> int): (r: seq<T>)
    requires SortedDesc(s, key)
    ensures SortedDesc(r, key)
    ensures multiset(r) == multiset(s) + multiset{x}
    ensures |r| == |s| + 1
    ensures r[0] == x || (|s| > 0 && r[0] == s[0])
  {
    if s == [] || key(s[0]) <= key(x) then [x] + s
    else
      var rest := Insert(x, s[1..], key);
      assert key(s[0]) >= key(rest[0]);
      assert s == [s[0]] + s[1..];
      [s[0]] + rest
  }

  /** The stable sort, largest key first. */
  function Sort<T>(s: seq<T>, key: T -> int): (r: seq<T>)
    ensures SortedDesc(r, key)
    ensures multiset(r) == multiset(s)
    ensures |r| == |s|
  {
    if s == [] then []
    else
      var rest := Sort(s[1..], key);
      assert s == [s[0]] + s[1..];
      assert multiset(s) == multiset{s[0]} + multiset(s[1..]);
      var r := Insert(s[0], rest, key);
      assert |r| == |multiset(r)|;
      r
  }

  lemma {:induction false} InsertWithKey<T>(x: T, s: seq<T>, key: T -> int, k: int)
    requires SortedDesc(s, key)
    ensures WithKey(Insert(x, s, key), key, k) == (if key(x) == k then [x] else []) + WithKey(s, key, k)
  {
    if s == [] || key(s[0]) <= key(x) {
      assert ([x] + s)[1..] == s;
    } else {
      var rest := Insert(x, s[1..], key);
      InsertWithKey(x, s[1..], key, k);
      assert Insert(x, s, key) == [s[0]] + rest;
      SkipLarger(s[0], x, rest, s[1..], key, k);
      assert s == [s[0]] + s[1..];
    }
  }

  /** An element with a strictly larger key than `x` commutes with `x` in
      the key-`k` subsequence. */
  lemma SkipLarger<T>(y: T, x: T, rest: seq<T>, tail: seq<T>, key: T -> int, k: int)
    requires key(y) > key(x)
    requires WithKey(rest, key, k) == (if key(x) == k then [x] else []) + WithKey(tail, key, k)
    ensures WithKey([y] + rest, key, k) == (if key(x) == k then [x] else []) + WithKey([y] + tail, key, k)
  {
    assert ([y] + rest)[1..] == rest;
    assert ([y] + tail)[1..] == tail;
  }

  /** Stability: for every key value, the elements with that key keep their
      relative order. */
  lemma {:induction false} SortIsStable<T>(s: seq<T>, key: T -> int, k: int)
    ensures WithKey(Sort(s, key), key, k) == WithKey(s, key, k)
  {
    if s != [] {
      SortIsStable(s[1..], key, k);
      InsertWithKey(s[0], Sort(s[1..], key), key, k);
    }
  }

  /** `s.map(f)`. */
  function Map<T, U>(s: seq<T>, f: T -> U): (r: seq<U>)
    ensures |r| == |s| && forall i :: 0 <= i < |s| ==> r[i] == f(s[i])
  {
    if s == [] then [] else [f(s[0])] + Map(s[1..], f)
  }

  /** Mapping keeps an order when the mapped key is the original key. */
  lemma MapKeepsSorted<T, U>(s: seq<T>, f: T -> U, keyT: T -> int, keyU: U -> int)
    requires SortedDesc(s, keyT)
    requires forall y :: keyU(f(y)) == keyT(y)
    ensures SortedDesc(Map(s, f), keyU)
  {
  }

  /** Sorting then mapping is mapping then sorting, when the mapped key is
      the original key. */
  lemma {:induction false} InsertMapCommutes<T, U>(x: T, s: seq<T>, f: T -> U, keyT: T -> int, keyU: U -> int)
    requires SortedDesc(s, keyT)
    requires forall y :: keyU(f(y)) == keyT(y)
    ensures Map(Insert(x, s, keyT), f) == Insert(f(x), Map(s, f), keyU)
  {
    MapKeepsSorted(s, f, keyT, keyU);
    var ms := Map(s, f);
    if s == [] || keyT(s[0]) <= keyT(x) {
      assert Insert(f(x), ms, keyU) == [f(x)] + ms;
      assert Map([x] + s, f) == [f(x)] + ms;
    } else {
      var rest := Insert(x, s[1..], keyT);
      InsertMapCommutes(x, s[1..], f, keyT, keyU);
      assert ms[0] == f(s[0]) && ms[1..] == Map(s[1..], f);
      assert keyU(ms[0]) > keyU(f(x));
      assert Insert(f(x), ms, keyU) == [ms[0]] + Insert(f(x), ms[1..], keyU);
      assert Map([s[0]] + rest, f) == [f(s[0])] + Map(rest, f);
    }
  }

  lemma {:induction false} SortMapCommutes<T, U>(s: seq<T>, f: T -> U, keyT: T -> int, keyU: U -> int)
    requires forall y :: keyU(f(y)) == keyT(y)
    ensures Map(Sort(s, keyT), f) == Sort(Map(s, f), keyU)
  {
    if s != [] {
      SortMapCommutes(s[1..], f, keyT, keyU);
      InsertMapCommutes(s[0], Sort(s[1..], keyT), f, keyT, keyU);
      MapKeepsSorted(Sort(s[1..], keyT), f, keyT, keyU);
      assert Map(s, f)[1..] == Map(s[1..], f);
    }
  }
}

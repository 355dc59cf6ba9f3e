/** `Array.prototype.sort((a, b) => key(b) - key(a))`: a sort into non-increasing key
    order that ECMAScript requires to be stable (equal keys keep their relative
    order). Modelled as an insertion sort over sequences. */
module StableSort {

  /** Put `x` in front of the first element whose key is not larger, so that `x`
      ends up before every element with the same key. */
  function Insert<T>(x: T, s: seq<T>, key: T -> real): (r: seq<T>)
    ensures |r| == |s| + 1
    ensures multiset(r) == multiset(s) + multiset{x}
  {
    if s == [] || key(s[0]) <= key(x) then [x] + s
    else
      assert s == [s[0]] + s[1..];
      [s[0]] + Insert(x, s[1..], key)
  }

  function SortDesc<T>(s: seq<T>, key: T -> real): (r: seq<T>)
    ensures |r| == |s|
    ensures multiset(r) == multiset(s)
  {
    if s == [] then []
    else
      assert s == [s[0]] + s[1..];
      Insert(s[0], SortDesc(s[1..], key), key)
  }

  /** The elements of `s` whose key is `k`, in their order in `s`. */
  function WithKey<T>(s: seq<T>, key: T -> real, k: real): seq<T> {
    if s == [] then [] else (if key(s[0]) == k then [s[0]] else []) + WithKey(s[1..], key, k)
  }

  lemma WithKeyCons<T>(y: T, t: seq<T>, key: T -> real, k: real)
    ensures WithKey([y] + t, key, k) == (if key(y) == k then [y] else []) + WithKey(t, key, k)
  {
    assert ([y] + t)[1..] == t;
  }

  lemma SwapEmpty<T>(a: seq<T>, b: seq<T>, rest: seq<T>)
    requires a == [] || b == []
    ensures a + (b + rest) == b + (a + rest)
  {
  }

  /** Inserting `x` puts it before every element with its key. */
  lemma {:induction false} InsertWithKey<T>(x: T, s: seq<T>, key: T -> real, k: real)
    ensures WithKey(Insert(x, s, key), key, k) == (if key(x) == k then [x] else []) + WithKey(s, key, k)
  {
    if s == [] || key(s[0]) <= key(x) {
      WithKeyCons(x, s, key, k);
    } else {
      var t := Insert(x, s[1..], key);
      assert Insert(x, s, key) == [s[0]] + t;
      WithKeyCons(s[0], t, key, k);
      InsertWithKey(x, s[1..], key, k);
      assert s == [s[0]] + s[1..];
      WithKeyCons(s[0], s[1..], key, k);
      SwapEmpty(if key(s[0]) == k then [s[0]] else [], if key(x) == k then [x] else [], WithKey(s[1..], key, k));
    }
  }

  /** Stability, for inputs that may repeat elements: for every key, the elements
      with that key come out in the order they went in. */
  lemma {:induction false} SortKeepsEqualKeyOrder<T>(s: seq<T>, key: T -> real, k: real)
    ensures WithKey(SortDesc(s, key), key, k) == WithKey(s, key, k)
  {
    if s != [] {
      SortKeepsEqualKeyOrder(s[1..], key, k);
      InsertWithKey(s[0], SortDesc(s[1..], key), key, k);
    }
  }

  ghost predicate Descending<T>(s: seq<T>, key: T -> real) {
    forall i, j :: 0 <= i < j < |s| ==> key(s[i]) >= key(s[j])
  }

  /** Ordered by key, descending, and among equal keys by `pos`, ascending. */
  ghost predicate DescendingThenBy<T>(s: seq<T>, key: T -> real, pos: T -> int) {
    forall i, j :: 0 <= i < j < |s| ==>
      key(s[i]) > key(s[j]) || (key(s[i]) == key(s[j]) && pos(s[i]) < pos(s[j]))
  }

  ghost predicate StrictlyIncreasing<T>(s: seq<T>, pos: T -> int) {
    forall i, j :: 0 <= i < j < |s| ==> pos(s[i]) < pos(s[j])
  }

  lemma {:induction false} InsertDescending<T>(x: T, s: seq<T>, key: T -> real)
    requires Descending(s, key)
    ensures Descending(Insert(x, s, key), key)
  {
    var r := Insert(x, s, key);
    if s == [] || key(s[0]) <= key(x) {
      assert r == [x] + s;
    } else {
      var t := Insert(x, s[1..], key);
      InsertDescending(x, s[1..], key);
      assert r == [s[0]] + t;
      forall j | 0 <= j < |t| ensures key(s[0]) >= key(t[j]) {
        assert t[j] in multiset(t);
        if t[j] != x {
          assert t[j] in multiset(s[1..]);
          var k :| 0 <= k < |s[1..]| && s[1..][k] == t[j];
          assert s[k + 1] == t[j];
        }
      }
    }
  }

  /** The sorted sequence is in non-increasing key order. */
  lemma {:induction false} SortDescending<T>(s: seq<T>, key: T -> real)
    ensures Descending(SortDesc(s, key), key)
  {
    if s != [] {
      SortDescending(s[1..], key);
      InsertDescending(s[0], SortDesc(s[1..], key), key);
    }
  }

  lemma {:induction false} InsertStable<T>(x: T, s: seq<T>, key: T -> real, pos: T -> int)
    requires DescendingThenBy(s, key, pos)
    requires forall e :: e in s ==> pos(x) < pos(e)
    ensures DescendingThenBy(Insert(x, s, key), key, pos)
  {
    var r := Insert(x, s, key);
    if s == [] || key(s[0]) <= key(x) {
      assert r == [x] + s;
      forall j | 0 <= j < |s| ensures key(x) > key(s[j]) || (key(x) == key(s[j]) && pos(x) < pos(s[j])) {
        assert s[j] in s;
      }
    } else {
      var t := Insert(x, s[1..], key);
      InsertStable(x, s[1..], key, pos);
      assert r == [s[0]] + t;
      forall j | 0 <= j < |t| ensures key(s[0]) > key(t[j]) || (key(s[0]) == key(t[j]) && pos(s[0]) < pos(t[j])) {
        assert t[j] in multiset(t);
        if t[j] != x {
          assert t[j] in multiset(s[1..]);
          var k :| 0 <= k < |s[1..]| && s[1..][k] == t[j];
          assert s[k + 1] == t[j];
        }
      }
    }
  }

  /** Stability: when the input is listed in increasing `pos`, elements with equal
      keys come out in increasing `pos` as well. */
  lemma {:induction false} SortStable<T>(s: seq<T>, key: T -> real, pos: T -> int)
    requires StrictlyIncreasing(s, pos)
    ensures DescendingThenBy(SortDesc(s, key), key, pos)
  {
    if s != [] {
      var t := SortDesc(s[1..], key);
      SortStable(s[1..], key, pos);
      forall e | e in t ensures pos(s[0]) < pos(e) {
        assert e in multiset(t);
        assert e in multiset(s[1..]);
        var k :| 0 <= k < |s[1..]| && s[1..][k] == e;
        assert s[k + 1] == e;
      }
      InsertStable(s[0], t, key, pos);
    }
  }
}

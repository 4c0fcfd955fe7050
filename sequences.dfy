/** Generic sequence operations the views build their derived arrays from:
    `Array.prototype.filter`, a stable `Array.prototype.sort` with a numeric
    comparator, and `slice(0, n)`. */
module Sequences {

  lemma ConcatAssociative<T>(a: seq<T>, b: seq<T>, c: seq<T>)
    ensures a + (b + c) == (a + b) + c
  {
  }

  /** The elements of `s` satisfying `p`, in their original order. */
  function Filter<T(!new)>(s: seq<T>, p: T -> bool): (r: seq<T>)
    ensures |r| <= |s|
    ensures forall i :: 0 <= i < |r| ==> p(r[i])
    ensures forall x :: x in r <==> x in s && p(x)
  {
    if s == [] then [] else (if p(s[0]) then [s[0]] else []) + Filter(s[1..], p)
  }

  /** Every element satisfying `p` is kept as often as it occurs in `s`. */
  lemma {:induction false} FilterMultiplicity<T(!new)>(s: seq<T>, p: T -> bool)
    ensures forall x :: multiset(Filter(s, p))[x] == if p(x) then multiset(s)[x] else 0
  {
    if s != [] {
      FilterMultiplicity(s[1..], p);
      assert s == [s[0]] + s[1..];
    }
  }

  /** Filtering a concatenation filters each part and keeps them in order. */
  lemma {:induction false} FilterAppend<T(!new)>(a: seq<T>, b: seq<T>, p: T -> bool)
    ensures Filter(a + b, p) == Filter(a, p) + Filter(b, p)
  {
    if a == [] {
      assert a + b == b;
    } else {
      var head := if p(a[0]) then [a[0]] else [];
      assert (a + b)[0] == a[0] && (a + b)[1..] == a[1..] + b;
      assert Filter(a + b, p) == head + Filter(a[1..] + b, p);
      FilterAppend(a[1..], b, p);
      ConcatAssociative(head, Filter(a[1..], p), Filter(b, p));
    }
  }

  /** `s.slice(0, n)`: the first `n` elements, or all of `s` when it is shorter. */
  function Take<T>(s: seq<T>, n: nat): (r: seq<T>)
    ensures |r| == if |s| <= n then |s| else n
    ensures r <= s
  {
    if |s| <= n then s else s[..n]
  }

  /** `s` is ordered non-decreasingly by `key`. */
  predicate SortedBy<T>(s: seq<T>, key: T -> int)
  {
    forall i, j :: 0 <= i < j < |s| ==> key(s[i]) <= key(s[j])
  }

  /** Inserts `x` in front of the first element whose key is not smaller than
      its own, so that `x` precedes every element of `s` with an equal key. */
  function Insert<T>(x: T, s: seq<T>, key: T -> int): (r: seq<T>)
    ensures multiset(r) == multiset(s) + multiset{x}
  {
    if s == [] || key(x) <= key(s[0]) then
      [x] + s
    else
      assert s == [s[0]] + s[1..];
      [s[0]] + Insert(x, s[1..], key)
  }

  lemma {:induction false} InsertSorted<T(!new)>(x: T, s: seq<T>, key: T -> int)
    requires SortedBy(s, key)
    ensures SortedBy(Insert(x, s, key), key)
  {
    if s != [] && key(x) > key(s[0]) {
      assert SortedBy(s[1..], key);
      InsertSorted(x, s[1..], key);
      InsertKeepsBound(x, s[1..], key, key(s[0]));
      SortedCons(s[0], Insert(x, s[1..], key), key);
    }
  }

  /** Inserting an element no smaller than a bound into elements no smaller
      than it keeps every element no smaller than it. */
  lemma {:induction false} InsertKeepsBound<T>(x: T, s: seq<T>, key: T -> int, b: int)
    requires key(x) >= b
    requires forall k :: 0 <= k < |s| ==> key(s[k]) >= b
    ensures forall k :: 0 <= k < |Insert(x, s, key)| ==> key(Insert(x, s, key)[k]) >= b
  {
    if s != [] && key(x) > key(s[0]) {
      InsertKeepsBound(x, s[1..], key, b);
      var rest := Insert(x, s[1..], key);
      forall k | 0 <= k < |[s[0]] + rest| ensures key(([s[0]] + rest)[k]) >= b {
        if k > 0 {
          assert ([s[0]] + rest)[k] == rest[k - 1];
        }
      }
    } else {
      forall k | 0 <= k < |[x] + s| ensures key(([x] + s)[k]) >= b {
        if k > 0 {
          assert ([x] + s)[k] == s[k - 1];
        }
      }
    }
  }

  /** An element no larger than any of a sorted sequence can go in front. */
  lemma SortedCons<T>(a: T, rest: seq<T>, key: T -> int)
    requires SortedBy(rest, key)
    requires forall k :: 0 <= k < |rest| ==> key(a) <= key(rest[k])
    ensures SortedBy([a] + rest, key)
  {
    var r := [a] + rest;
    forall i, j | 0 <= i < j < |r| ensures key(r[i]) <= key(r[j]) {
      assert r[j] == rest[j - 1];
      if i > 0 {
        assert r[i] == rest[i - 1];
      }
    }
  }

  /** A stable sort ascending by `key`: the model of
      `[...s].sort((a, b) => key(a) - key(b))`, which ECMAScript requires to
      be stable. */
  function SortBy<T(!new)>(s: seq<T>, key: T -> int): (r: seq<T>)
    ensures multiset(r) == multiset(s)
    ensures |r| == |s|
    ensures SortedBy(r, key)
  {
    if s == [] then []
    else
      var r := Insert(s[0], SortBy(s[1..], key), key);
      InsertSorted(s[0], SortBy(s[1..], key), key);
      assert s == [s[0]] + s[1..];
      assert |r| == |multiset(r)|;
      r
  }

  /** The elements of `s` whose key is `k`, in their original order. */
  function WithKey<T>(s: seq<T>, key: T -> int, k: int): seq<T>
  {
    if s == [] then [] else (if key(s[0]) == k then [s[0]] else []) + WithKey(s[1..], key, k)
  }

  lemma {:induction false} InsertWithKey<T(!new)>(x: T, s: seq<T>, key: T -> int, k: int)
    requires SortedBy(s, key)
    ensures WithKey(Insert(x, s, key), key, k)
         == (if key(x) == k then [x] else []) + WithKey(s, key, k)
  {
    if s == [] || key(x) <= key(s[0]) {
      assert ([x] + s)[0] == x && ([x] + s)[1..] == s;
    } else {
      var rest := Insert(x, s[1..], key);
      var r := [s[0]] + rest;
      assert Insert(x, s, key) == r;
      assert r[0] == s[0] && r[1..] == rest;
      assert SortedBy(s[1..], key);
      InsertWithKey(x, s[1..], key, k);
      calc {
        WithKey(r, key, k);
        (if key(s[0]) == k then [s[0]] else []) + WithKey(rest, key, k);
        (if key(s[0]) == k then [s[0]] else []) + ((if key(x) == k then [x] else []) + WithKey(s[1..], key, k));
        (if key(x) == k then [x] else []) + ((if key(s[0]) == k then [s[0]] else []) + WithKey(s[1..], key, k));
        (if key(x) == k then [x] else []) + WithKey(s, key, k);
      }
    }
  }

  /** Stability: for every key value, the elements carrying it appear in the
      sorted result in the same relative order as in the input. */
  lemma {:induction false} SortStable<T(!new)>(s: seq<T>, key: T -> int, k: int)
    ensures WithKey(SortBy(s, key), key, k) == WithKey(s, key, k)
  {
    if s != [] {
      SortStable(s[1..], key, k);
      InsertWithKey(s[0], SortBy(s[1..], key), key, k);
    }
  }

  /** Sorting a sequence that is already sorted returns it unchanged. */
  lemma {:induction false} SortSortedIdentity<T(!new)>(s: seq<T>, key: T -> int)
    requires SortedBy(s, key)
    ensures SortBy(s, key) == s
  {
    if s != [] {
      assert SortedBy(s[1..], key);
      SortSortedIdentity(s[1..], key);
      assert s == [s[0]] + s[1..];
    }
  }

  /** Sorting is idempotent. */
  lemma SortIdempotent<T(!new)>(s: seq<T>, key: T -> int)
    ensures SortBy(SortBy(s, key), key) == SortBy(s, key)
  {
    SortSortedIdentity(SortBy(s, key), key);
  }

  /** No two positions of `s` share the same image under `f`. */
  predicate Distinct<T, U(==)>(s: seq<T>, f: T -> U)
  {
    forall i, j :: 0 <= i < j < |s| ==> f(s[i]) != f(s[j])
  }

  lemma {:induction false} InsertDistinct<T(!new), U>(x: T, s: seq<T>, key: T -> int, f: T -> U)
    requires Distinct(s, f)
    requires forall y :: y in s ==> f(y) != f(x)
    ensures Distinct(Insert(x, s, key), f)
  {
    if s != [] && key(x) > key(s[0]) {
      var rest := Insert(x, s[1..], key);
      assert Distinct(s[1..], f);
      InsertDistinct(x, s[1..], key, f);
      forall y | y in rest ensures f(y) != f(s[0]) {
        assert y in multiset(rest);
        if y != x {
          var j :| 0 <= j < |s[1..]| && s[1..][j] == y;
          assert s[j + 1] == y;
        }
      }
      var r := [s[0]] + rest;
      forall i, j | 0 <= i < j < |r| ensures f(r[i]) != f(r[j]) {
        if i == 0 {
          assert r[j] == rest[j - 1];
          assert r[j] in rest;
        } else {
          assert r[i] == rest[i - 1] && r[j] == rest[j - 1];
        }
      }
    }
  }

  /** Sorting preserves the distinctness of a projection, such as an id. */
  lemma {:induction false} SortDistinct<T(!new), U>(s: seq<T>, key: T -> int, f: T -> U)
    requires Distinct(s, f)
    ensures Distinct(SortBy(s, key), f)
  {
    if s != [] {
      assert Distinct(s[1..], f);
      SortDistinct(s[1..], key, f);
      var t := SortBy(s[1..], key);
      forall y | y in t ensures f(y) != f(s[0]) {
        assert y in multiset(s[1..]);
        var j :| 0 <= j < |s[1..]| && s[1..][j] == y;
        assert s[j + 1] == y;
      }
      InsertDistinct(s[0], t, key, f);
    }
  }

  /** What `sort(...).slice(0, n)` promises: at most `n` elements, in key
      order, drawn from `s`, and every element of `s` left out has a key no
      smaller than the last one kept. */
  lemma TopBy<T(!new)>(s: seq<T>, key: T -> int, n: nat)
    requires n > 0
    ensures var r := Take(SortBy(s, key), n);
      && |r| == (if |s| <= n then |s| else n)
      && SortedBy(r, key)
      && multiset(r) <= multiset(s)
      && (forall x :: x in multiset(s) - multiset(r) ==> |r| == n && key(r[n - 1]) <= key(x))
  {
    var t := SortBy(s, key);
    var r := Take(t, n);
    var tail := t[|r|..];
    assert t == r + tail;
    assert multiset(t) == multiset(r) + multiset(tail);
    assert SortedBy(r, key) by {
      forall i, j | 0 <= i < j < |r| ensures key(r[i]) <= key(r[j]) {
        assert r[i] == t[i] && r[j] == t[j];
      }
    }
    forall x | x in multiset(s) - multiset(r)
      ensures |r| == n && key(r[n - 1]) <= key(x)
    {
      assert x in multiset(tail);
      assert x in tail;
      var j :| 0 <= j < |tail| && tail[j] == x;
      assert t[|r| + j] == x;
      assert |r| == n;
      assert r[n - 1] == t[n - 1];
    }
  }
}

/** `Array.prototype.sort` with a comparator of the form `(a, b) => key(a) - key(b)`.
    ECMA-262 (since the 10th edition, section 22.1.3.27) requires this sort to be stable,
    so its result is fully determined: sorted by key, a permutation of the input, and
    elements with equal keys in input order. SortBy is one such sort (insertion sort),
    and SortedStableUnique shows that any result with those three properties equals it. */
module StableSort {

  ghost predicate SortedBy<T>(s: seq<T>, key: T -> int) {
    forall i, j :: 0 <= i < j < |s| ==> key(s[i]) <= key(s[j])
  }

  /** The elements of `s` whose key is `k`, in their order in `s`. */
  function WithKey<T>(s: seq<T>, key: T -> int, k: int): (r: seq<T>)
    ensures |r| <= |s|
  {
    if |s| == 0 then [] else (if key(s[0]) == k then [s[0]] else []) + WithKey(s[1..], key, k)
  }

  /** WithKey keeps elements of `s` with key `k` only. */
  lemma {:induction false} WithKeyMembers<T>(s: seq<T>, key: T -> int, k: int)
    ensures forall y :: y in WithKey(s, key, k) ==> key(y) == k && y in s
  {
    if |s| > 0 {
      WithKeyMembers(s[1..], key, k);
      assert forall y :: y in s[1..] ==> y in s;
    }
  }

  /** Insert `x` in front of the first element of `t` whose key is not smaller. */
  function Insert<T>(x: T, t: seq<T>, key: T -> int): (r: seq<T>)
    ensures |r| == |t| + 1
  {
    if |t| == 0 then [x]
    else if key(x) <= key(t[0]) then [x] + t
    else [t[0]] + Insert(x, t[1..], key)
  }

  /** Inserting into a sorted sequence keeps it sorted; the new first element is `x` or the old one. */
  lemma {:induction false} InsertSorted<T>(x: T, t: seq<T>, key: T -> int)
    requires SortedBy(t, key)
    ensures SortedBy(Insert(x, t, key), key)
    ensures Insert(x, t, key)[0] == x || (|t| > 0 && Insert(x, t, key)[0] == t[0])
  {
    if |t| > 0 && key(x) > key(t[0]) {
      SortedTail(t, key);
      InsertSorted(x, t[1..], key);
      var u := Insert(x, t[1..], key);
      var r := [t[0]] + u;
      assert key(t[0]) <= key(u[0]) by {
        if u[0] != x {
          assert u[0] == t[1..][0] == t[1];
        }
      }
      forall i, j | 0 <= i < j < |r| ensures key(r[i]) <= key(r[j]) {
        assert r[j] == u[j - 1];
        if i == 0 {
          if j > 1 {
            assert key(u[0]) <= key(u[j - 1]);
          }
        } else {
          assert r[i] == u[i - 1];
        }
      }
    }
  }

  /** Inserting adds exactly `x`. */
  lemma {:induction false} InsertMultiset<T>(x: T, t: seq<T>, key: T -> int)
    ensures multiset(Insert(x, t, key)) == multiset(t) + multiset{x}
  {
    if |t| > 0 && key(x) > key(t[0]) {
      InsertMultiset(x, t[1..], key);
      assert t == [t[0]] + t[1..];
    }
  }

  /** `[...s].sort((a, b) => key(a) - key(b))` */
  function SortBy<T>(s: seq<T>, key: T -> int): (r: seq<T>)
    ensures SortedBy(r, key)
    ensures multiset(r) == multiset(s)
    ensures |r| == |s|
  {
    if |s| == 0 then []
    else
      var t := SortBy(s[1..], key);
      InsertSorted(s[0], t, key);
      InsertMultiset(s[0], t, key);
      MultisetCons(s);
      Insert(s[0], t, key)
  }

  lemma MultisetCons<T>(s: seq<T>)
    requires |s| > 0
    ensures multiset(s) == multiset(s[1..]) + multiset{s[0]}
  {
    assert s == [s[0]] + s[1..];
  }

  lemma WithKeyConcat<T>(a: seq<T>, b: seq<T>, key: T -> int, k: int)
    ensures WithKey(a + b, key, k) == WithKey(a, key, k) + WithKey(b, key, k)
  {
    if a != [] {
      var ab := a + b;
      assert ab[0] == a[0] && ab[1..] == a[1..] + b;
      WithKeyConcat(a[1..], b, key, k);
      var h := if key(a[0]) == k then [a[0]] else [];
      calc {
        WithKey(ab, key, k);
        h + WithKey(a[1..] + b, key, k);
        h + (WithKey(a[1..], key, k) + WithKey(b, key, k));
        (h + WithKey(a[1..], key, k)) + WithKey(b, key, k);
      }
    } else {
      assert a + b == b;
    }
  }

  lemma SortedTail<T>(t: seq<T>, key: T -> int)
    requires |t| > 0 && SortedBy(t, key)
    ensures SortedBy(t[1..], key)
    ensures forall i :: 0 <= i < |t| ==> key(t[0]) <= key(t[i])
  {
    forall i, j | 0 <= i < j < |t[1..]| ensures key(t[1..][i]) <= key(t[1..][j]) {
      assert t[1..][i] == t[i + 1] && t[1..][j] == t[j + 1];
    }
  }

  lemma WithKeyCons<T>(y: T, s: seq<T>, key: T -> int, k: int)
    ensures WithKey([y] + s, key, k) == (if key(y) == k then [y] else []) + WithKey(s, key, k)
  {
    var r := [y] + s;
    assert r[0] == y && r[1..] == s;
  }

  /** Inserting places the new element in front of every element with the same key. */
  lemma {:induction false} InsertWithKey<T>(x: T, t: seq<T>, key: T -> int, k: int)
    ensures WithKey(Insert(x, t, key), key, k) ==
            (if key(x) == k then [x] else []) + WithKey(t, key, k)
  {
    var hx := if key(x) == k then [x] else [];
    if |t| == 0 {
      WithKeyCons(x, t, key, k);
    } else if key(x) <= key(t[0]) {
      WithKeyCons(x, t, key, k);
    } else {
      var ht := if key(t[0]) == k then [t[0]] else [];
      var u := Insert(x, t[1..], key);
      var w := WithKey(t[1..], key, k);
      calc {
        WithKey(Insert(x, t, key), key, k);
        WithKey([t[0]] + u, key, k);
        { WithKeyCons(t[0], u, key, k); }
        ht + WithKey(u, key, k);
        { InsertWithKey(x, t[1..], key, k); }
        ht + (hx + w);
        { SwapEmpty(ht, hx, w); }
        hx + (ht + w);
        hx + WithKey(t, key, k);
      }
    }
  }

  lemma SwapEmpty<T>(a: seq<T>, b: seq<T>, w: seq<T>)
    requires a == [] || b == []
    ensures a + (b + w) == b + (a + w)
  {
    if a == [] {
      assert a + (b + w) == b + w == b + (a + w);
    } else {
      assert a + (b + w) == a + w == b + (a + w);
    }
  }

  /** SortBy is stable: for every key, the elements with that key keep their input order. */
  lemma {:induction false} SortByStable<T>(s: seq<T>, key: T -> int, k: int)
    ensures WithKey(SortBy(s, key), key, k) == WithKey(s, key, k)
  {
    if |s| > 0 {
      SortByStable(s[1..], key, k);
      InsertWithKey(s[0], SortBy(s[1..], key), key, k);
    }
  }

  lemma {:induction false} WithKeyHas<T>(s: seq<T>, key: T -> int, i: nat)
    requires i < |s|
    ensures s[i] in WithKey(s, key, key(s[i]))
  {
    if i > 0 {
      WithKeyHas(s[1..], key, i - 1);
      assert s[1..][i - 1] == s[i];
    }
  }

  /** Any two sequences that are sorted by the same key and agree on every key's
      elements in order are equal: a stable sort has only one possible result. */
  lemma {:induction false} SortedStableUnique<T>(a: seq<T>, b: seq<T>, key: T -> int)
    requires SortedBy(a, key) && SortedBy(b, key)
    requires forall k :: WithKey(a, key, k) == WithKey(b, key, k)
    ensures a == b
  {
    if |a| == 0 || |b| == 0 {
      if |b| > 0 {
        WithKeyHas(b, key, 0);
      }
      if |a| > 0 {
        WithKeyHas(a, key, 0);
      }
    } else {
      var m, n := key(a[0]), key(b[0]);
      WithKeyHas(b, key, 0);
      WithKeyHas(a, key, 0);
      assert m <= n by {
        var y := b[0];
        assert y in WithKey(a, key, n);
        WithKeyMembers(a, key, n);
        var i :| 0 <= i < |a| && a[i] == y;
        if i > 0 { assert key(a[0]) <= key(a[i]); }
      }
      assert n <= m by {
        var y := a[0];
        assert y in WithKey(b, key, m);
        WithKeyMembers(b, key, m);
        var i :| 0 <= i < |b| && b[i] == y;
        if i > 0 { assert key(b[0]) <= key(b[i]); }
      }
      assert WithKey(a, key, m) == [a[0]] + WithKey(a[1..], key, m);
      assert WithKey(b, key, m) == [b[0]] + WithKey(b[1..], key, m);
      assert WithKey(a, key, m) == WithKey(b, key, m);
      assert ([a[0]] + WithKey(a[1..], key, m))[0] == a[0];
      assert ([b[0]] + WithKey(b[1..], key, m))[0] == b[0];
      assert a[0] == b[0];
      forall k ensures WithKey(a[1..], key, k) == WithKey(b[1..], key, k) {
        assert WithKey(a, key, k) == WithKey(b, key, k);
        var ha := if m == k then [a[0]] else [];
        assert WithKey(a, key, k) == ha + WithKey(a[1..], key, k);
        assert WithKey(b, key, k) == ha + WithKey(b[1..], key, k);
        assert (ha + WithKey(a[1..], key, k))[|ha|..] == WithKey(a[1..], key, k);
        assert (ha + WithKey(b[1..], key, k))[|ha|..] == WithKey(b[1..], key, k);
      }
      SortedTail(a, key);
      SortedTail(b, key);
      SortedStableUnique(a[1..], b[1..], key);
      assert a == [a[0]] + a[1..] && b == [b[0]] + b[1..];
    }
  }

  /** Any stable sort of `s` by `key` returns SortBy(s, key). */
  lemma StableSortIsSortBy<T>(s: seq<T>, r: seq<T>, key: T -> int)
    requires SortedBy(r, key)
    requires forall k :: WithKey(r, key, k) == WithKey(s, key, k)
    ensures r == SortBy(s, key)
  {
    forall k ensures WithKey(r, key, k) == WithKey(SortBy(s, key), key, k) {
      SortByStable(s, key, k);
    }
    SortedStableUnique(r, SortBy(s, key), key);
  }
}

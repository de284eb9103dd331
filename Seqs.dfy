/** Sequence operations with the meaning of `Array.prototype.filter` and of
    `[...new Set(xs)]`, with the facts the app models rely on. */
module Seqs {

  /** `a` is obtained from `b` by deleting elements: the relative order of what remains is kept. */
  ghost predicate IsSubsequence<T>(a: seq<T>, b: seq<T>)
    decreases |b|
  {
    if a == [] then true
    else if b == [] then false
    else (a[0] == b[0] && IsSubsequence(a[1..], b[1..])) || IsSubsequence(a, b[1..])
  }

  /** `s.filter(p)` */
  function Filter<T>(s: seq<T>, p: T -> bool): (r: seq<T>)
    ensures |r| <= |s|
    ensures forall k :: 0 <= k < |r| ==> p(r[k])
    ensures forall k :: 0 <= k < |r| ==> r[k] in s
    ensures forall k :: 0 <= k < |s| && p(s[k]) ==> s[k] in r
    ensures (forall k :: 0 <= k < |s| ==> p(s[k])) ==> r == s
  {
    if |s| == 0 then []
    else
      var t := Filter(s[1..], p);
      assert (forall k :: 0 <= k < |s| ==> p(s[k])) ==> t == s[1..] by {
        if forall k :: 0 <= k < |s| ==> p(s[k]) {
          forall k | 0 <= k < |s[1..]| ensures p(s[1..][k]) { assert s[1..][k] == s[k + 1]; }
        }
      }
      if p(s[0]) then [s[0]] + t else t
  }

  /** Filtering keeps the order of what it keeps. */
  lemma {:induction false} FilterIsSubsequence<T>(s: seq<T>, p: T -> bool)
    ensures IsSubsequence(Filter(s, p), s)
  {
    if |s| > 0 {
      var t := Filter(s[1..], p);
      FilterIsSubsequence(s[1..], p);
      if p(s[0]) {
        assert ([s[0]] + t)[0] == s[0] && ([s[0]] + t)[1..] == t;
      }
    }
  }

  /** Filtering keeps every copy of an element that passes and no copy of one that fails. */
  lemma {:induction false} FilterCounts<T>(s: seq<T>, p: T -> bool)
    ensures forall x :: multiset(Filter(s, p))[x] == if p(x) then multiset(s)[x] else 0
  {
    if |s| > 0 {
      FilterCounts(s[1..], p);
      assert s == [s[0]] + s[1..];
      var t := Filter(s[1..], p);
      assert multiset(Filter(s, p)) == (if p(s[0]) then multiset{s[0]} else multiset{}) + multiset(t) by {
        if p(s[0]) { assert Filter(s, p) == [s[0]] + t; }
      }
    }
  }

  lemma FilterConcat<T>(a: seq<T>, b: seq<T>, p: T -> bool)
    ensures Filter(a + b, p) == Filter(a, p) + Filter(b, p)
  {
    if a == [] {
      assert a + b == b;
    } else {
      assert (a + b)[1..] == a[1..] + b;
      FilterConcat(a[1..], b, p);
    }
  }

  /** No element occurs twice. */
  predicate NoDuplicates<T(==)>(s: seq<T>) {
    forall i, j :: 0 <= i < j < |s| ==> s[i] != s[j]
  }

  /** Filtering a repetition-free sequence leaves it repetition-free. */
  lemma {:induction false} FilterKeepsNoDuplicates<T>(s: seq<T>, p: T -> bool)
    requires NoDuplicates(s)
    ensures NoDuplicates(Filter(s, p))
  {
    if |s| > 0 {
      assert NoDuplicates(s[1..]) by {
        forall i, j | 0 <= i < j < |s[1..]| ensures s[1..][i] != s[1..][j] {
          assert s[1..][i] == s[i + 1] && s[1..][j] == s[j + 1];
        }
      }
      FilterKeepsNoDuplicates(s[1..], p);
      assert s[0] !in s[1..] by {
        forall k | 0 <= k < |s[1..]| ensures s[1..][k] != s[0] {
          assert s[1..][k] == s[k + 1];
        }
      }
    }
  }

  /** `[...new Set(s)]`: the distinct elements in order of first occurrence. */
  function Distinct<T(==)>(s: seq<T>): (r: seq<T>)
    ensures forall k :: 0 <= k < |r| ==> r[k] in s
    ensures forall k :: 0 <= k < |s| ==> s[k] in r
    ensures forall i, j :: 0 <= i < j < |r| ==> r[i] != r[j]
    ensures |r| <= |s|
  {
    if |s| == 0 then []
    else
      var d := Distinct(s[..|s| - 1]);
      assert s == s[..|s| - 1] + [s[|s| - 1]];
      if s[|s| - 1] in d then d else d + [s[|s| - 1]]
  }

  /** The position of the first `x` in `s`, or `|s|` when there is none. */
  function FirstIndex<T(==)>(s: seq<T>, x: T): (i: nat)
    ensures i <= |s| && (i < |s| <==> x in s)
    ensures i < |s| ==> s[i] == x && forall k :: 0 <= k < i ==> s[k] != x
  {
    if |s| == 0 then 0
    else if s[0] == x then 0
    else
      assert forall k :: 0 < k < |s| ==> s[k] == s[1..][k - 1];
      1 + FirstIndex(s[1..], x)
  }

  /** The elements of `r` appear in the order of their first occurrence in `s`. */
  ghost predicate InFirstOccurrenceOrder<T>(r: seq<T>, s: seq<T>) {
    forall i, j :: 0 <= i < j < |r| ==> FirstIndex(s, r[i]) < FirstIndex(s, r[j])
  }

  /** Extending `s` at the end keeps the first position of anything already in it. */
  lemma FirstIndexAppend<T>(s: seq<T>, y: T, x: T)
    requires x in s
    ensures FirstIndex(s + [y], x) == FirstIndex(s, x)
  {
    var i, j := FirstIndex(s + [y], x), FirstIndex(s, x);
    assert (s + [y])[j] == x;
    assert s[i] == (s + [y])[i] by { assert i <= j; }
  }

  lemma {:induction false} SubsequenceExtend<T>(a: seq<T>, b: seq<T>, x: T)
    requires IsSubsequence(a, b)
    ensures IsSubsequence(a, b + [x])
    decreases |b|
  {
    if a != [] && b != [] {
      assert (b + [x])[0] == b[0] && (b + [x])[1..] == b[1..] + [x];
      if a[0] == b[0] && IsSubsequence(a[1..], b[1..]) {
        SubsequenceExtend(a[1..], b[1..], x);
      } else {
        SubsequenceExtend(a, b[1..], x);
      }
    }
  }

  lemma {:induction false} SubsequenceSnoc<T>(a: seq<T>, b: seq<T>, x: T)
    requires IsSubsequence(a, b)
    ensures IsSubsequence(a + [x], b + [x])
    decreases |b|
  {
    if b == [] {
      assert a == [];
      assert ([] + [x])[1..] == [];
    } else {
      assert (b + [x])[0] == b[0] && (b + [x])[1..] == b[1..] + [x];
      if a != [] && a[0] == b[0] && IsSubsequence(a[1..], b[1..]) {
        SubsequenceSnoc(a[1..], b[1..], x);
        assert (a + [x])[0] == a[0] && (a + [x])[1..] == a[1..] + [x];
      } else {
        SubsequenceSnoc(a, b[1..], x);
      }
    }
  }

  /** A subsequence of a subsequence is a subsequence. */
  lemma {:induction false} SubsequenceTransitive<T>(a: seq<T>, b: seq<T>, c: seq<T>)
    requires IsSubsequence(a, b) && IsSubsequence(b, c)
    ensures IsSubsequence(a, c)
    decreases |c|
  {
    if a != [] {
      if b[0] == c[0] && IsSubsequence(b[1..], c[1..]) {
        if a[0] == b[0] && IsSubsequence(a[1..], b[1..]) {
          SubsequenceTransitive(a[1..], b[1..], c[1..]);
        } else {
          SubsequenceTransitive(a, b[1..], c[1..]);
        }
      } else {
        SubsequenceTransitive(a, b, c[1..]);
      }
    }
  }

  /** Every element of a subsequence occurs in the larger sequence. */
  lemma {:induction false} SubsequenceMembers<T>(a: seq<T>, b: seq<T>)
    requires IsSubsequence(a, b)
    ensures forall k :: 0 <= k < |a| ==> a[k] in b
    decreases |b|
  {
    if a != [] {
      if a[0] == b[0] && IsSubsequence(a[1..], b[1..]) {
        SubsequenceMembers(a[1..], b[1..]);
        forall k | 0 < k < |a| ensures a[k] in b { assert a[k] == a[1..][k - 1]; }
      } else {
        SubsequenceMembers(a, b[1..]);
      }
    }
  }

  /** A subsequence of a sequence in first-occurrence order is in that order too. */
  lemma {:induction false} SubsequenceKeepsOrder<T>(a: seq<T>, b: seq<T>, s: seq<T>)
    requires IsSubsequence(a, b) && InFirstOccurrenceOrder(b, s)
    ensures InFirstOccurrenceOrder(a, s)
    decreases |b|
  {
    if a != [] {
      assert InFirstOccurrenceOrder(b[1..], s) by {
        forall i, j | 0 <= i < j < |b[1..]| ensures FirstIndex(s, b[1..][i]) < FirstIndex(s, b[1..][j]) {
          assert b[1..][i] == b[i + 1] && b[1..][j] == b[j + 1];
        }
      }
      if a[0] == b[0] && IsSubsequence(a[1..], b[1..]) {
        SubsequenceKeepsOrder(a[1..], b[1..], s);
        SubsequenceMembers(a[1..], b[1..]);
        forall i, j | 0 <= i < j < |a| ensures FirstIndex(s, a[i]) < FirstIndex(s, a[j]) {
          assert a[j] == a[1..][j - 1];
          if i == 0 {
            var m :| 0 <= m < |b[1..]| && b[1..][m] == a[j];
            assert b[m + 1] == a[j];
          } else {
            assert a[i] == a[1..][i - 1];
          }
        }
      } else {
        SubsequenceKeepsOrder(a, b[1..], s);
      }
    }
  }

  /** `[...new Set(s)]` keeps the order of `s`: it is a subsequence of `s`. */
  lemma {:induction false} DistinctIsSubsequence<T>(s: seq<T>)
    ensures IsSubsequence(Distinct(s), s)
  {
    if |s| > 0 {
      var p, y := s[..|s| - 1], s[|s| - 1];
      DistinctIsSubsequence(p);
      assert s == p + [y];
      if y in Distinct(p) {
        SubsequenceExtend(Distinct(p), p, y);
      } else {
        SubsequenceSnoc(Distinct(p), p, y);
      }
    }
  }

  /** The elements of `[...new Set(s)]` come in the order of their first occurrence in `s`. */
  lemma {:induction false} DistinctFirstOccurrenceOrder<T>(s: seq<T>)
    ensures InFirstOccurrenceOrder(Distinct(s), s)
  {
    if |s| > 0 {
      var p, y := s[..|s| - 1], s[|s| - 1];
      var d := Distinct(p);
      DistinctFirstOccurrenceOrder(p);
      assert s == p + [y];
      var r := Distinct(s);
      forall i, j | 0 <= i < j < |r| ensures FirstIndex(s, r[i]) < FirstIndex(s, r[j]) {
        DistinctStepOrder(p, y, i, j);
      }
    }
  }

  lemma DistinctStepOrder<T>(p: seq<T>, y: T, i: int, j: int)
    requires InFirstOccurrenceOrder(Distinct(p), p)
    requires 0 <= i < j < |Distinct(p + [y])|
    ensures FirstIndex(p + [y], Distinct(p + [y])[i]) < FirstIndex(p + [y], Distinct(p + [y])[j])
  {
    var d, r := Distinct(p), Distinct(p + [y]);
    DistinctSnoc(p, y);
    assert r[i] == d[i] && d[i] in p;
    if j < |d| {
      assert r[j] == d[j] && d[j] in p;
      assert FirstIndex(p, d[i]) < FirstIndex(p, d[j]);
      OldPairOrder(p, y, d[i], d[j]);
    } else {
      assert r[j] == y;
      NewLastOrder(p, y, d[i]);
    }
  }

  lemma OldPairOrder<T>(p: seq<T>, y: T, a: T, b: T)
    requires a in p && b in p && FirstIndex(p, a) < FirstIndex(p, b)
    ensures FirstIndex(p + [y], a) < FirstIndex(p + [y], b)
  {
    FirstIndexAppend(p, y, a);
    FirstIndexAppend(p, y, b);
  }

  lemma NewLastOrder<T>(p: seq<T>, y: T, a: T)
    requires a in p && y !in p
    ensures FirstIndex(p + [y], a) < FirstIndex(p + [y], y)
  {
    FirstIndexAppend(p, y, a);
    assert (p + [y])[|p|] == y;
  }

  /** Deduplicating one more element. */
  lemma DistinctSnoc<T>(p: seq<T>, y: T)
    ensures Distinct(p + [y]) == if y in Distinct(p) then Distinct(p) else Distinct(p) + [y]
    ensures y !in Distinct(p) ==> y !in p
  {
    assert (p + [y])[..|p + [y]| - 1] == p;
  }

  /** A repetition-free sequence has as many elements as its set. */
  lemma {:induction false} NoDuplicatesCardinality<T>(s: seq<T>)
    requires forall i, j :: 0 <= i < j < |s| ==> s[i] != s[j]
    ensures |set x | x in s| == |s|
  {
    if |s| > 0 {
      var t := s[..|s| - 1];
      NoDuplicatesCardinality(t);
      assert s == t + [s[|s| - 1]];
      assert s[|s| - 1] !in t;
      assert (set x | x in s) == (set x | x in t) + {s[|s| - 1]};
    }
  }

  /** `new Set(s).size` equals the length of the deduplicated list. */
  lemma DistinctCardinality<T>(s: seq<T>)
    ensures |Distinct(s)| == |set x | x in s|
  {
    NoDuplicatesCardinality(Distinct(s));
    assert (set x | x in Distinct(s)) == (set x | x in s);
  }
}

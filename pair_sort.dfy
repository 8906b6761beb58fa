/** The sort step of the data-check-string:
    `[...params.entries()].sort((a, b) => a[0].localeCompare(b[0]))`,
    as an insertion sort on the key order, which is a parameter. The
    order it gives pairs with equal keys is not stated: the properties
    below are sortedness, the permutation, and uniqueness of the result
    when keys are distinct. */
module PairSort {
  import opened Runtime

  /** Inserts `x` after every pair whose key comes strictly before its own,
      and before the rest. */
  function Insert(before: (string, string) -> bool, x: Pair, t: seq<Pair>): (r: seq<Pair>)
    ensures multiset(r) == multiset(t) + multiset{x}
    ensures |r| == |t| + 1
  {
    if t == [] then [x]
    else if before(t[0].0, x.0) then
      assert t == [t[0]] + t[1..];
      [t[0]] + Insert(before, x, t[1..])
    else [x] + t
  }

  /** Insertion sort by key. */
  function SortByKey(before: (string, string) -> bool, s: seq<Pair>): (r: seq<Pair>)
    ensures multiset(r) == multiset(s)
    ensures |r| == |s|
  {
    if s == [] then []
    else
      assert s == [s[0]] + s[1..];
      Insert(before, s[0], SortByKey(before, s[1..]))
  }

  /** No pair is followed by one whose key comes strictly before its own. */
  ghost predicate SortedByKey(before: (string, string) -> bool, t: seq<Pair>) {
    forall i, j :: 0 <= i < j < |t| ==> !before(t[j].0, t[i].0)
  }

  predicate DistinctKeys(t: seq<Pair>) {
    forall i, j :: 0 <= i < j < |t| ==> t[i].0 != t[j].0
  }

  /** No key of `t` comes strictly before `key`. */
  ghost predicate NoneBefore(before: (string, string) -> bool, t: seq<Pair>, key: string) {
    forall k :: 0 <= k < |t| ==> !before(t[k].0, key)
  }

  lemma ConsSorted(before: (string, string) -> bool, x: Pair, rest: seq<Pair>)
    requires SortedByKey(before, rest) && NoneBefore(before, rest, x.0)
    ensures SortedByKey(before, [x] + rest)
  {
    var r := [x] + rest;
    forall k | 0 < k < |r| ensures r[k] == rest[k - 1] {}
  }

  lemma SortedHead(before: (string, string) -> bool, t: seq<Pair>)
    requires SortedByKey(before, t) && t != []
    ensures SortedByKey(before, t[1..]) && NoneBefore(before, t[1..], t[0].0)
  {
    var rest := t[1..];
    forall k | 0 <= k < |rest| ensures rest[k] == t[k + 1] {}
  }

  /** Inserting a pair whose key does not come before `key` keeps that
      property of the whole sequence. */
  lemma {:induction false} InsertNoneBefore(before: (string, string) -> bool, x: Pair, t: seq<Pair>, key: string)
    requires NoneBefore(before, t, key) && !before(x.0, key)
    ensures NoneBefore(before, Insert(before, x, t), key)
  {
    if t != [] && before(t[0].0, x.0) {
      var rest := t[1..];
      assert NoneBefore(before, rest, key) by {
        forall k | 0 <= k < |rest| ensures rest[k] == t[k + 1] {}
      }
      InsertNoneBefore(before, x, rest, key);
      var r := [t[0]] + Insert(before, x, rest);
      forall k | 0 < k < |r| ensures r[k] == Insert(before, x, rest)[k - 1] {}
    } else if t != [] {
      var r := [x] + t;
      forall k | 0 < k < |r| ensures r[k] == t[k - 1] {}
    }
  }

  lemma {:induction false} InsertSorted(before: (string, string) -> bool, x: Pair, t: seq<Pair>)
    requires StrictTotalOrder(before)
    requires SortedByKey(before, t)
    ensures SortedByKey(before, Insert(before, x, t))
  {
    if t != [] && before(t[0].0, x.0) {
      SortedHead(before, t);
      InsertSorted(before, x, t[1..]);
      assert !before(x.0, t[0].0);
      InsertNoneBefore(before, x, t[1..], t[0].0);
      ConsSorted(before, t[0], Insert(before, x, t[1..]));
    } else if t != [] {
      assert NoneBefore(before, t, x.0) by {
        forall k | 0 <= k < |t| ensures !before(t[k].0, x.0) {
          if k > 0 {
            assert !before(t[k].0, t[0].0);
          }
        }
      }
      ConsSorted(before, x, t);
    }
  }

  /** The sort puts keys in order. */
  lemma {:induction false} SortSorted(before: (string, string) -> bool, s: seq<Pair>)
    requires StrictTotalOrder(before)
    ensures SortedByKey(before, SortByKey(before, s))
  {
    if s != [] {
      SortSorted(before, s[1..]);
      InsertSorted(before, s[0], SortByKey(before, s[1..]));
    }
  }

  lemma SortedTail(before: (string, string) -> bool, t: seq<Pair>)
    requires SortedByKey(before, t) && t != []
    ensures SortedByKey(before, t[1..])
  {
    var rest := t[1..];
    forall k | 0 <= k < |rest| ensures rest[k] == t[k + 1] {}
  }

  lemma DistinctTail(t: seq<Pair>)
    requires DistinctKeys(t) && t != []
    ensures DistinctKeys(t[1..])
  {
    var rest := t[1..];
    forall k | 0 <= k < |rest| ensures rest[k] == t[k + 1] {}
  }

  /** Two key-sorted sequences with the same pairs, one of them with
      distinct keys, start with the same pair. */
  lemma SameHead(before: (string, string) -> bool, a: seq<Pair>, b: seq<Pair>)
    requires StrictTotalOrder(before)
    requires SortedByKey(before, a) && SortedByKey(before, b)
    requires DistinctKeys(a)
    requires multiset(a) == multiset(b)
    requires a != [] && b != []
    ensures a[0] == b[0]
  {
    assert b[0] in multiset(a);
    var i :| 0 <= i < |a| && a[i] == b[0];
    assert a[0] in multiset(b);
    var j :| 0 <= j < |b| && b[j] == a[0];
    assert !before(b[0].0, b[j].0);
    assert !before(a[0].0, a[i].0);
  }

  /** Two key-sorted sequences with the same pairs are equal when the keys
      of one of them are distinct. */
  lemma {:induction false} SortedUnique(before: (string, string) -> bool, a: seq<Pair>, b: seq<Pair>)
    requires StrictTotalOrder(before)
    requires SortedByKey(before, a) && SortedByKey(before, b)
    requires DistinctKeys(a)
    requires multiset(a) == multiset(b)
    ensures a == b
    decreases |a|
  {
    assert |a| == |multiset(a)| == |multiset(b)| == |b|;
    if a != [] {
      SameHead(before, a, b);
      assert a == [a[0]] + a[1..] && b == [b[0]] + b[1..];
      assert multiset(a[1..]) == multiset(a) - multiset{a[0]};
      assert multiset(b[1..]) == multiset(b) - multiset{b[0]};
      SortedTail(before, a);
      SortedTail(before, b);
      DistinctTail(a);
      SortedUnique(before, a[1..], b[1..]);
    }
  }

  /** An element that occurs twice has two positions. */
  lemma {:induction false} TwoOccurrences(s: seq<Pair>, x: Pair)
    requires multiset(s)[x] >= 2
    ensures exists i, j :: 0 <= i < j < |s| && s[i] == x && s[j] == x
  {
    assert s == [s[0]] + s[1..];
    var rest := s[1..];
    if s[0] == x {
      assert x in multiset(rest);
      var k :| 0 <= k < |rest| && rest[k] == x;
      assert s[k + 1] == x;
    } else {
      assert multiset(rest)[x] >= 2;
      TwoOccurrences(rest, x);
      var i, j :| 0 <= i < j < |rest| && rest[i] == x && rest[j] == x;
      assert s[i + 1] == x && s[j + 1] == x;
    }
  }

  /** Two positions of a rearrangement come from two positions of the
      original. */
  lemma PositionsOf(s: seq<Pair>, t: seq<Pair>, i: int, j: int)
    requires multiset(s) == multiset(t)
    requires 0 <= i < j < |t|
    ensures exists p, q :: 0 <= p < |s| && 0 <= q < |s| && p != q && s[p] == t[i] && s[q] == t[j]
  {
    if t[i] == t[j] {
      assert multiset(t)[t[i]] >= 2 by {
        assert t == t[..j] + [t[j]] + t[j + 1..];
        assert t[i] in t[..j];
      }
      TwoOccurrences(s, t[i]);
    } else {
      assert t[i] in multiset(s) && t[j] in multiset(s);
      var p :| 0 <= p < |s| && s[p] == t[i];
      var q :| 0 <= q < |s| && s[q] == t[j];
      assert p != q;
    }
  }

  /** Rearranging pairs keeps their keys distinct. */
  lemma DistinctKeysPermutation(s: seq<Pair>, t: seq<Pair>)
    requires DistinctKeys(s)
    requires multiset(s) == multiset(t)
    ensures DistinctKeys(t)
  {
    forall i, j | 0 <= i < j < |t| ensures t[i].0 != t[j].0 {
      PositionsOf(s, t, i, j);
      var p, q :| 0 <= p < |s| && 0 <= q < |s| && p != q && s[p] == t[i] && s[q] == t[j];
      assert p < q || q < p;
    }
  }

  /** For pairs with distinct keys the sorted result does not depend on the
      input order. */
  lemma SortIndependentOfOrder(before: (string, string) -> bool, s: seq<Pair>, t: seq<Pair>)
    requires StrictTotalOrder(before)
    requires DistinctKeys(s)
    requires multiset(s) == multiset(t)
    ensures SortByKey(before, s) == SortByKey(before, t)
  {
    DistinctKeysPermutation(s, SortByKey(before, s));
    SortSorted(before, s);
    SortSorted(before, t);
    SortedUnique(before, SortByKey(before, s), SortByKey(before, t));
  }
}

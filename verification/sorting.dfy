/** The composite ordering of the ranked report: VAF descending, then the
    four ranks ascending in column order. The model sorts with a stable
    insertion sort on sequences. */
module Sorting {
  import opened Report
  import opened Ranking

  /** The sort columns of one row, in priority order. */
  datatype SortKey = SortKey(vaf: int, ranks: Ranks)

  function Key(x: RankedRow): SortKey {
    SortKey(x.row.vaf, x.ranks)
  }

  /** Lexicographic order on the four ranks, each ascending. */
  predicate RanksLe(a: Ranks, b: Ranks) {
    || a.oncoKb < b.oncoKb
    || (a.oncoKb == b.oncoKb && a.impact < b.impact)
    || (a.oncoKb == b.oncoKb && a.impact == b.impact && a.oncogenic < b.oncogenic)
    || (a.oncoKb == b.oncoKb && a.impact == b.impact && a.oncogenic == b.oncogenic
        && a.mutationEffect <= b.mutationEffect)
  }

  /** `a` may come before `b`: a higher VAF, or the same VAF and ranks no
      later in the lexicographic order. */
  predicate Le(a: SortKey, b: SortKey) {
    a.vaf > b.vaf || (a.vaf == b.vaf && RanksLe(a.ranks, b.ranks))
  }

  /** Le is a total order on keys: reflexive, total, transitive and
      antisymmetric, so rows are tied exactly when their keys are equal. */
  lemma LeIsTotalOrder(a: SortKey, b: SortKey, c: SortKey)
    ensures Le(a, a)
    ensures Le(a, b) || Le(b, a)
    ensures Le(a, b) && Le(b, c) ==> Le(a, c)
    ensures Le(a, b) && Le(b, a) ==> a == b
  {
  }

  /** Every adjacent pair is in order. */
  predicate Sorted(s: seq<RankedRow>) {
    forall i :: 0 <= i < |s| - 1 ==> Le(Key(s[i]), Key(s[i + 1]))
  }

  /** Places `x` before the first element it may precede, so it stays ahead
      of elements with an equal key. */
  function Insert(x: RankedRow, t: seq<RankedRow>): (r: seq<RankedRow>)
    requires Sorted(t)
    ensures Sorted(r)
    ensures multiset(r) == multiset(t) + multiset{x}
    ensures |r| == |t| + 1
    ensures r[0] == x || (t != [] && r[0] == t[0])
  {
    if t == [] then [x]
    else if Le(Key(x), Key(t[0])) then [x] + t
    else
      var rest := Insert(x, t[1..]);
      assert t == [t[0]] + t[1..];
      [t[0]] + rest
  }

  /** The rows in composite-key order: an ordered permutation of the input. */
  function InsertionSort(s: seq<RankedRow>): (r: seq<RankedRow>)
    ensures Sorted(r)
    ensures multiset(r) == multiset(s)
    ensures |r| == |s|
  {
    if s == [] then []
    else
      assert s == [s[0]] + s[1..];
      Insert(s[0], InsertionSort(s[1..]))
  }

  /** Sorted adjacent pairs make every pair ordered. */
  lemma {:induction false} SortedAllPairs(s: seq<RankedRow>)
    requires Sorted(s)
    ensures forall i, j :: 0 <= i < j < |s| ==> Le(Key(s[i]), Key(s[j]))
    decreases |s|
  {
    if |s| > 1 {
      SortedAllPairs(s[1..]);
      forall j | 1 < j < |s|
        ensures Le(Key(s[0]), Key(s[j]))
      {
        assert s[1..][j - 1] == s[j];
        LeIsTotalOrder(Key(s[0]), Key(s[1]), Key(s[j]));
      }
    }
  }

  /** The rows whose key is `k`, in sequence order. */
  function WithKey(s: seq<RankedRow>, k: SortKey): (r: seq<RankedRow>)
    ensures forall i :: 0 <= i < |r| ==> Key(r[i]) == k
  {
    if s == [] then []
    else (if Key(s[0]) == k then [s[0]] else []) + WithKey(s[1..], k)
  }

  lemma WithKeyCons(a: RankedRow, s: seq<RankedRow>, k: SortKey)
    ensures WithKey([a] + s, k) == (if Key(a) == k then [a] else []) + WithKey(s, k)
  {
    assert ([a] + s)[1..] == s;
  }

  lemma {:induction false} InsertWithKey(x: RankedRow, t: seq<RankedRow>, k: SortKey)
    requires Sorted(t)
    ensures WithKey(Insert(x, t), k) == if Key(x) == k then [x] + WithKey(t, k) else WithKey(t, k)
    decreases |t|
  {
    if t == [] {
      WithKeyCons(x, [], k);
    } else if Le(Key(x), Key(t[0])) {
      WithKeyCons(x, t, k);
    } else {
      var rest := Insert(x, t[1..]);
      assert Insert(x, t) == [t[0]] + rest;
      InsertWithKey(x, t[1..], k);
      WithKeyCons(t[0], rest, k);
      WithKeyCons(t[0], t[1..], k);
      assert [t[0]] + t[1..] == t;
      LeIsTotalOrder(Key(x), Key(t[0]), Key(x));
      assert Key(t[0]) != Key(x);
    }
  }

  /** Stability: within every group of rows with one and the same key, the
      sort keeps the input order. */
  lemma {:induction false} InsertionSortStable(s: seq<RankedRow>, k: SortKey)
    ensures WithKey(InsertionSort(s), k) == WithKey(s, k)
    decreases |s|
  {
    if s != [] {
      InsertionSortStable(s[1..], k);
      InsertWithKey(s[0], InsertionSort(s[1..]), k);
      WithKeyCons(s[0], s[1..], k);
      assert [s[0]] + s[1..] == s;
    }
  }
}

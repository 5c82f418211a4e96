/**
 * Ranking of a score vector the way numpy does it in this code base:
 * `scores.argsort()[-k:][::-1]`. `argsort` returns the indices ordered by
 * non-decreasing score; numpy's default sort is not stable, so indices of
 * equal scores may come in any order. The model therefore never fixes that
 * order: every operation takes the order argsort returned as a parameter,
 * constrained only by IsArgsort, and Argsort below shows such an order exists
 * for every score vector.
 */
module Ranking {

  /** How many ranked entries the web engine and the Gradio front end keep: `argsort()[-5:]`. */
  const TopCount: nat := 5

  function Min(a: int, b: int): int {
    if a <= b then a else b
  }

  /** The indices 0, 1, ..., n - 1. */
  function Range(n: nat): (r: seq<nat>)
    ensures |r| == n && forall i :: 0 <= i < n ==> r[i] == i
  {
    seq(n, i => i)
  }

  predicate InRange(n: nat, s: seq<nat>) {
    forall i :: 0 <= i < |s| ==> s[i] < n
  }

  predicate Distinct(s: seq<nat>) {
    forall i, j :: 0 <= i < j < |s| ==> s[i] != s[j]
  }

  /** Scores do not decrease along `order`. */
  predicate NonDecreasing(scores: seq<real>, order: seq<nat>)
    requires InRange(|scores|, order)
  {
    forall i, j :: 0 <= i < j < |order| ==> scores[order[i]] <= scores[order[j]]
  }

  /** Scores do not increase along `order`. */
  predicate NonIncreasing(scores: seq<real>, order: seq<nat>)
    requires InRange(|scores|, order)
  {
    forall i, j :: 0 <= i < j < |order| ==> scores[order[i]] >= scores[order[j]]
  }

  /**
   * `order` is a result `scores.argsort()` may return: every index of `scores`
   * exactly once, with non-decreasing scores; equal scores in any order.
   */
  predicate IsArgsort(scores: seq<real>, order: seq<nat>) {
    && InRange(|scores|, order)
    && multiset(order) == multiset(Range(|scores|))
    && NonDecreasing(scores, order)
  }

  /** `s` lists each of the indices 0 .. n - 1 exactly once. */
  predicate IsIndexPermutation(n: nat, s: seq<nat>) {
    && |s| == n
    && InRange(n, s)
    && Distinct(s)
    && forall x :: 0 <= x < n ==> x in s
  }

  /**
   * `top` is a valid top-k selection of `scores`: min(k, n) distinct indices,
   * ranked by non-increasing score, and no index left out scores higher than
   * any index kept.
   */
  predicate IsTopK(scores: seq<real>, k: nat, top: seq<nat>) {
    && |top| == Min(k, |scores|)
    && InRange(|scores|, top)
    && Distinct(top)
    && NonIncreasing(scores, top)
    && forall x, j :: 0 <= x < |scores| && x !in top && 0 <= j < |top| ==> scores[x] <= scores[top[j]]
  }

  // ---------------------------------------------------------------------------
  // An argsort exists for every score vector (insertion sort on indices).

  lemma SuffixNonDecreasing(scores: seq<real>, order: seq<nat>, d: nat)
    requires InRange(|scores|, order) && NonDecreasing(scores, order) && d <= |order|
    ensures InRange(|scores|, order[d..]) && NonDecreasing(scores, order[d..])
  {
    var s := order[d..];
    forall i, j | 0 <= i < j < |s| ensures scores[s[i]] <= scores[s[j]] {
      assert s[i] == order[d + i] && s[j] == order[d + j];
    }
  }

  /** Putting `h` in front of a sorted run whose scores are all at least h's keeps it sorted. */
  lemma PrependSorted(scores: seq<real>, h: nat, rest: seq<nat>)
    requires h < |scores| && InRange(|scores|, rest) && NonDecreasing(scores, rest)
    requires forall y :: y in rest ==> scores[h] <= scores[y]
    ensures InRange(|scores|, [h] + rest) && NonDecreasing(scores, [h] + rest)
  {
    var r := [h] + rest;
    forall i, j | 0 <= i < j < |r| ensures scores[r[i]] <= scores[r[j]] {
      assert r[j] == rest[j - 1];
      if i > 0 {
        assert r[i] == rest[i - 1];
      }
    }
  }

  /** Inserting an index scoring above the head of a sorted run leaves the head lowest. */
  lemma InsertedAboveHead(scores: seq<real>, x: nat, sorted: seq<nat>, rest: seq<nat>)
    requires x < |scores| && InRange(|scores|, sorted) && NonDecreasing(scores, sorted)
    requires sorted != [] && scores[x] > scores[sorted[0]]
    requires multiset(rest) == multiset(sorted[1..]) + multiset{x}
    ensures forall y :: y in rest ==> y < |scores| && scores[sorted[0]] <= scores[y]
  {
    forall y | y in rest ensures y < |scores| && scores[sorted[0]] <= scores[y] {
      assert y in multiset(rest);
      if y != x {
        assert y in multiset(sorted[1..]);
        var i :| 0 <= i < |sorted[1..]| && sorted[1..][i] == y;
        assert sorted[i + 1] == y;
      }
    }
  }

  function InsertByScore(scores: seq<real>, x: nat, sorted: seq<nat>): (r: seq<nat>)
    requires x < |scores| && InRange(|scores|, sorted) && NonDecreasing(scores, sorted)
    ensures multiset(r) == multiset(sorted) + multiset{x}
    ensures InRange(|scores|, r) && NonDecreasing(scores, r)
  {
    if sorted == [] || scores[x] <= scores[sorted[0]] then
      PrependSorted(scores, x, sorted);
      [x] + sorted
    else
      SuffixNonDecreasing(scores, sorted, 1);
      var rest := InsertByScore(scores, x, sorted[1..]);
      assert sorted == [sorted[0]] + sorted[1..];
      InsertedAboveHead(scores, x, sorted, rest);
      PrependSorted(scores, sorted[0], rest);
      [sorted[0]] + rest
  }

  function SortByScore(scores: seq<real>, idx: seq<nat>): (r: seq<nat>)
    requires InRange(|scores|, idx)
    ensures multiset(r) == multiset(idx)
    ensures InRange(|scores|, r) && NonDecreasing(scores, r)
  {
    if idx == [] then []
    else
      assert idx == [idx[0]] + idx[1..];
      InsertByScore(scores, idx[0], SortByScore(scores, idx[1..]))
  }

  /** One order numpy's argsort may return. */
  function Argsort(scores: seq<real>): (order: seq<nat>)
    ensures IsArgsort(scores, order)
  {
    SortByScore(scores, Range(|scores|))
  }

  // ---------------------------------------------------------------------------
  // Selection and reversal, as Python slices.

  /** Python's `s[-k:]`: the last k elements, all of `s` when k >= |s|, and (since -0 == 0) all of `s` when k == 0. */
  function LastK(s: seq<nat>, k: nat): (r: seq<nat>)
    ensures |r| == (if k == 0 then |s| else Min(k, |s|)) && r == s[|s| - |r|..]
  {
    if k == 0 || k >= |s| then s else s[|s| - k..]
  }

  /** Python's `s[::-1]`: the same elements, last first. */
  function Reverse(s: seq<nat>): (r: seq<nat>)
    ensures |r| == |s| && forall j :: 0 <= j < |s| ==> r[j] == s[|s| - 1 - j]
    ensures multiset(r) == multiset(s)
  {
    if s == [] then []
    else
      var n := |s| - 1;
      assert s == s[..n] + [s[n]];
      [s[n]] + Reverse(s[..n])
  }

  /** `scores.argsort()[-k:][::-1]`, given the order argsort returned. */
  function TopK(order: seq<nat>, k: nat): (top: seq<nat>)
    ensures |top| == if k == 0 then |order| else Min(k, |order|)
    ensures forall j :: 0 <= j < |top| ==> top[j] == order[|order| - 1 - j]
  {
    Reverse(LastK(order, k))
  }

  // ---------------------------------------------------------------------------
  // Properties.

  lemma {:induction false} RangeCount(n: nat, v: nat)
    ensures multiset(Range(n))[v] == if v < n then 1 else 0
  {
    if n > 0 {
      assert Range(n) == Range(n - 1) + [n - 1];
      RangeCount(n - 1, v);
    }
  }

  /** An argsort lists each index exactly once. */
  lemma ArgsortIsPermutation(scores: seq<real>, order: seq<nat>)
    requires IsArgsort(scores, order)
    ensures IsIndexPermutation(|scores|, order)
  {
    var n := |scores|;
    assert |order| == |multiset(order)| == |multiset(Range(n))| == n;
    forall x | 0 <= x < n ensures x in order {
      RangeCount(n, x);
      assert x in multiset(order);
    }
    forall i, j | 0 <= i < j < |order| ensures order[i] != order[j] {
      var v := order[i];
      assert order == order[..j] + order[j..];
      assert v in multiset(order[..j]);
      if order[j] == v {
        assert v in multiset(order[j..]);
        assert multiset(order)[v] >= 2;
        RangeCount(n, v);
        assert false;
      }
    }
  }

  lemma SuffixDistinct(n: nat, order: seq<nat>, d: nat)
    requires InRange(n, order) && Distinct(order) && d <= |order|
    ensures InRange(n, order[d..]) && Distinct(order[d..])
  {
    var s := order[d..];
    forall i, j | 0 <= i < j < |s| ensures s[i] != s[j] {
      assert s[i] == order[d + i] && s[j] == order[d + j];
    }
  }

  lemma ReverseDistinct(n: nat, s: seq<nat>)
    requires InRange(n, s) && Distinct(s)
    ensures InRange(n, Reverse(s)) && Distinct(Reverse(s))
  {
    var r, m := Reverse(s), |s|;
    forall i, j | 0 <= i < j < m ensures r[i] != r[j] {
      assert r[i] == s[m - 1 - i] && r[j] == s[m - 1 - j];
    }
  }

  lemma TopKDistinct(n: nat, order: seq<nat>, k: nat)
    requires InRange(n, order) && Distinct(order)
    ensures InRange(n, TopK(order, k)) && Distinct(TopK(order, k))
  {
    var tail := LastK(order, k);
    SuffixDistinct(n, order, |order| - |tail|);
    ReverseDistinct(n, tail);
  }

  lemma ReverseNonIncreasing(scores: seq<real>, s: seq<nat>)
    requires InRange(|scores|, s) && NonDecreasing(scores, s)
    ensures InRange(|scores|, Reverse(s)) && NonIncreasing(scores, Reverse(s))
  {
    var r, n := Reverse(s), |s|;
    forall i, j | 0 <= i < j < n ensures scores[r[i]] >= scores[r[j]] {
      assert r[i] == s[n - 1 - i] && r[j] == s[n - 1 - j];
    }
  }

  lemma TopKNonIncreasing(scores: seq<real>, order: seq<nat>, k: nat)
    requires InRange(|scores|, order) && NonDecreasing(scores, order)
    ensures InRange(|scores|, TopK(order, k))
    ensures NonIncreasing(scores, TopK(order, k))
  {
    var tail := LastK(order, k);
    SuffixNonDecreasing(scores, order, |order| - |tail|);
    ReverseNonIncreasing(scores, tail);
  }

  lemma LateIndexIsKept(order: seq<nat>, top: seq<nat>, p: nat)
    requires |top| <= |order| && forall i :: 0 <= i < |top| ==> top[i] == order[|order| - 1 - i]
    requires p < |order|
    ensures p >= |order| - |top| ==> order[p] in top
  {
    if p >= |order| - |top| {
      assert top[|order| - 1 - p] == order[p];
    }
  }

  lemma LeftOutNoBetter(scores: seq<real>, order: seq<nat>, top: seq<nat>, x: nat, j: nat)
    requires |order| == |scores| && InRange(|scores|, order) && NonDecreasing(scores, order)
    requires |top| <= |order| && forall i :: 0 <= i < |top| ==> top[i] == order[|order| - 1 - i]
    requires x in order && x !in top && j < |top|
    ensures scores[x] <= scores[top[j]]
  {
    var n, m := |order|, |top|;
    var p :| 0 <= p < n && order[p] == x;
    LateIndexIsKept(order, top, p);
    var b := n - 1 - j;
    assert top[j] == order[b];
    assert 0 <= p < b < n;
  }

  lemma TopKLeavesOutNoBetter(scores: seq<real>, order: seq<nat>, k: nat)
    requires |order| == |scores| && InRange(|scores|, order) && NonDecreasing(scores, order)
    requires forall x :: 0 <= x < |scores| ==> x in order
    ensures InRange(|scores|, TopK(order, k))
    ensures forall x, j :: 0 <= x < |scores| && x !in TopK(order, k) && 0 <= j < |TopK(order, k)| ==>
              scores[x] <= scores[TopK(order, k)[j]]
  {
    var top := TopK(order, k);
    assert InRange(|scores|, top);
    forall x, j | 0 <= x < |scores| && x !in top && 0 <= j < |top|
      ensures scores[x] <= scores[top[j]]
    {
      LeftOutNoBetter(scores, order, top, x, j);
    }
  }

  /** `argsort()[-k:][::-1]` with k > 0 is a top-k selection. */
  lemma TopKSelects(scores: seq<real>, order: seq<nat>, k: nat)
    requires IsArgsort(scores, order) && k > 0
    ensures IsTopK(scores, k, TopK(order, k))
  {
    ArgsortIsPermutation(scores, order);
    TopKDistinct(|scores|, order, k);
    TopKNonIncreasing(scores, order, k);
    TopKLeavesOutNoBetter(scores, order, k);
  }

  /** The ranked index at the head of a top-k selection has the highest score. */
  lemma {:induction false} TopKHeadIsBest(scores: seq<real>, k: nat, top: seq<nat>)
    requires IsTopK(scores, k, top) && |top| > 0
    ensures forall x :: 0 <= x < |scores| ==> scores[x] <= scores[top[0]]
  {
    forall x | 0 <= x < |scores| ensures scores[x] <= scores[top[0]] {
      if x in top {
        var j :| 0 <= j < |top| && top[j] == x;
        assert j == 0 || scores[top[0]] >= scores[top[j]];
      }
    }
  }

  /** The full ranking (`k` = number of scores) visits every index once, best first. */
  lemma FullRanking(scores: seq<real>, order: seq<nat>)
    requires IsArgsort(scores, order)
    ensures IsIndexPermutation(|scores|, TopK(order, |scores|))
    ensures NonIncreasing(scores, TopK(order, |scores|))
  {
    ArgsortIsPermutation(scores, order);
    var n, top := |scores|, TopK(order, |scores|);
    forall x | 0 <= x < n ensures x in top {
      assert x in order;
      var p :| 0 <= p < n && order[p] == x;
      assert top[n - 1 - p] == x;
    }
  }

  /** The top k are the first k of the full ranking. */
  lemma TopKIsPrefixOfFullRanking(scores: seq<real>, order: seq<nat>, k: nat)
    requires IsArgsort(scores, order) && k > 0
    ensures |scores| == |order|
    ensures TopK(order, k) == TopK(order, |scores|)[..Min(k, |scores|)]
  {
    ArgsortIsPermutation(scores, order);
  }
}

/** k-subsets of {0, .., n-1} in increasing bitmask order. A subset is kept as the ascending list
    of its members (the positions of the set bits of the source's `appendix_subset`); the step
    of Gosper's hack is the colexicographic successor, and the combinatorial number system
    gives every subset its index in that order. */
module Combinations {

  /** The binomial coefficient C(n, k) by Pascal's rule. */
  function Binomial(n: nat, k: nat): nat
  {
    if k == 0 then 1 else if n == 0 then 0 else Binomial(n - 1, k - 1) + Binomial(n - 1, k)
  }

  lemma {:induction false} BinomialBelow(n: nat, k: nat)
    requires n < k
    ensures Binomial(n, k) == 0
  {
    if n > 0 {
      BinomialBelow(n - 1, k - 1);
      BinomialBelow(n - 1, k);
    }
  }

  lemma {:induction false} BinomialStep(n: nat, k: nat)
    ensures Binomial(n + 1, k + 1) == Binomial(n, k) + Binomial(n, k + 1)
  {
  }

  lemma {:induction false} BinomialMono(n: nat, m: nat, k: nat)
    requires n <= m
    ensures Binomial(n, k) <= Binomial(m, k)
    decreases m - n
  {
    if n < m {
      BinomialMono(n, m - 1, k);
      if k > 0 {
        BinomialStep(m - 1, k - 1);
      }
    }
  }

  lemma {:induction false} BinomialPositive(n: nat, k: nat)
    requires k <= n
    ensures Binomial(n, k) >= 1
  {
    if k > 0 {
      BinomialPositive(n - 1, k - 1);
    }
  }

  /** An ascending list of k >= 1 members of {0, .., n-1}. */
  predicate IsCombo(c: seq<int>, n: int)
  {
    && |c| >= 1
    && 0 <= c[0]
    && (forall i, j :: 0 <= i < j < |c| ==> c[i] < c[j])
    && c[|c| - 1] < n
  }

  /** The first subset in the order: {0, .., k-1} (`(1 << k) - 1`). */
  function First(k: nat): (c: seq<int>)
    ensures |c| == k
    ensures forall i :: 0 <= i < k ==> c[i] == i
  {
    seq(k, i => i)
  }

  /** The end of the lowest run of consecutive members, searching from j. */
  function RunEnd(c: seq<int>, j: nat): (e: nat)
    requires j < |c|
    ensures j <= e < |c|
    ensures e == |c| - 1 || c[e] + 1 != c[e + 1]
    ensures forall i :: j <= i < e ==> c[i] + 1 == c[i + 1]
    decreases |c| - j
  {
    if j == |c| - 1 || c[j] + 1 != c[j + 1] then j else RunEnd(c, j + 1)
  }

  /** Gosper's step: the lowest run c[0..e] gives way to {0, .., e-1} and c[e] + 1. */
  function Succ(c: seq<int>): (d: seq<int>)
    requires |c| >= 1
    ensures |d| == |c|
  {
    var e := RunEnd(c, 0);
    seq(|c|, i requires 0 <= i < |c| => if i < e then i else if i == e then c[e] + 1 else c[i])
  }

  /** Sum of C(c[i], i+1) over lo <= i < hi: the index of c in colexicographic order. */
  function RankRange(c: seq<int>, lo: nat, hi: nat): nat
    requires lo <= hi <= |c|
    requires forall i :: 0 <= i < |c| ==> c[i] >= 0
    decreases hi - lo
  {
    if hi == lo then 0 else RankRange(c, lo, hi - 1) + Binomial(c[hi - 1], hi)
  }

  function Rank(c: seq<int>): nat
    requires forall i :: 0 <= i < |c| ==> c[i] >= 0
  {
    RankRange(c, 0, |c|)
  }

  /** Sum of C(a+i, i+1) over i < j. */
  function HockeySum(a: nat, j: nat): nat
  {
    if j == 0 then 0 else HockeySum(a, j - 1) + Binomial(a + j - 1, j)
  }

  /** The hockey-stick identity. */
  lemma {:induction false} HockeyStick(a: nat, j: nat)
    ensures HockeySum(a, j) + 1 == Binomial(a + j, j)
  {
    if j > 0 {
      HockeyStick(a, j - 1);
      BinomialStep(a + j - 1, j - 1);
    }
  }

  lemma {:induction false} RankRangeRun(c: seq<int>, j: nat)
    requires j <= |c| && |c| >= 1 && c[0] >= 0
    requires forall i :: 0 <= i < |c| ==> c[i] >= 0
    requires forall i :: 0 <= i < j ==> c[i] == c[0] + i
    ensures RankRange(c, 0, j) == HockeySum(c[0], j)
  {
    if j > 0 {
      RankRangeRun(c, j - 1);
    }
  }

  lemma {:induction false} RankRangeIdentity(c: seq<int>, j: nat)
    requires j <= |c|
    requires forall i :: 0 <= i < |c| ==> c[i] >= 0
    requires forall i :: 0 <= i < j ==> c[i] == i
    ensures RankRange(c, 0, j) == 0
  {
    if j > 0 {
      RankRangeIdentity(c, j - 1);
      BinomialBelow(j - 1, j);
    }
  }

  lemma {:induction false} RankRangeAgree(c: seq<int>, d: seq<int>, lo: nat, hi: nat)
    requires lo <= hi <= |c| == |d|
    requires forall i :: 0 <= i < |c| ==> c[i] >= 0 && d[i] >= 0
    requires forall i :: lo <= i < hi ==> c[i] == d[i]
    ensures RankRange(c, lo, hi) == RankRange(d, lo, hi)
    decreases hi - lo
  {
    if hi > lo {
      RankRangeAgree(c, d, lo, hi - 1);
    }
  }

  lemma {:induction false} RankRangeSplit(c: seq<int>, lo: nat, mid: nat, hi: nat)
    requires lo <= mid <= hi <= |c|
    requires forall i :: 0 <= i < |c| ==> c[i] >= 0
    ensures RankRange(c, lo, hi) == RankRange(c, lo, mid) + RankRange(c, mid, hi)
    decreases hi - mid
  {
    if hi > mid {
      RankRangeSplit(c, lo, mid, hi - 1);
    }
  }

  /** The members of an ascending list lie on a run below the top. */
  lemma AscendingGaps(c: seq<int>, i: int, j: int)
    requires |c| >= 1 && forall p, q :: 0 <= p < q < |c| ==> c[p] < c[q]
    requires 0 <= i <= j < |c|
    ensures c[j] - c[i] >= j - i
    decreases j - i
  {
    if i < j {
      AscendingGaps(c, i, j - 1);
    }
  }

  lemma RunValues(c: seq<int>)
    requires |c| >= 1
    ensures var e := RunEnd(c, 0); forall i :: 0 <= i <= e ==> c[i] == c[0] + i
  {
    var e := RunEnd(c, 0);
    forall i | 0 <= i <= e
      ensures c[i] == c[0] + i
    {
      RunValuesUpTo(c, e, i);
    }
  }

  lemma {:induction false} RunValuesUpTo(c: seq<int>, e: nat, i: nat)
    requires e < |c| && i <= e
    requires forall p :: 0 <= p < e ==> c[p] + 1 == c[p + 1]
    ensures c[i] == c[0] + i
  {
    if i > 0 {
      RunValuesUpTo(c, e, i - 1);
    }
  }

  /** Gosper's step moves to the next index. */
  lemma SuccRank(c: seq<int>, n: int)
    requires IsCombo(c, n)
    ensures forall i :: 0 <= i < |c| ==> Succ(c)[i] >= 0
    ensures Rank(Succ(c)) == Rank(c) + 1
  {
    var e := RunEnd(c, 0);
    AscendingAllNonneg(c);
    RankAroundRun(c, e);
    SuccRankAround(c, e);
    RunRank(c, e);
    BinomialStep(c[e], e);
  }

  /** The index of a list split at position e. */
  lemma RankAroundRun(c: seq<int>, e: nat)
    requires e < |c| && forall i :: 0 <= i < |c| ==> c[i] >= 0
    ensures Rank(c) == RankRange(c, 0, e) + Binomial(c[e], e + 1) + RankRange(c, e + 1, |c|)
  {
    RankRangeSplit(c, 0, e, |c|);
    RankRangeSplit(c, e, e + 1, |c|);
  }

  /** The index after the step: the run below e counts nothing, the rest is unchanged. */
  lemma SuccRankAround(c: seq<int>, e: nat)
    requires |c| >= 1 && e == RunEnd(c, 0) && forall i :: 0 <= i < |c| ==> c[i] >= 0
    ensures forall i :: 0 <= i < |c| ==> Succ(c)[i] >= 0
    ensures Rank(Succ(c)) == Binomial(c[e] + 1, e + 1) + RankRange(c, e + 1, |c|)
  {
    SuccAt(c, e);
    StepRank(c, Succ(c), e);
  }

  /** The members of Gosper's step, position by position. */
  lemma SuccAt(c: seq<int>, e: nat)
    requires |c| >= 1 && e == RunEnd(c, 0)
    ensures |Succ(c)| == |c| && Succ(c)[e] == c[e] + 1
    ensures forall i :: 0 <= i < e ==> Succ(c)[i] == i
    ensures forall i :: e < i < |c| ==> Succ(c)[i] == c[i]
  {
  }

  lemma StepRank(c: seq<int>, d: seq<int>, e: nat)
    requires e < |c| == |d| && forall i :: 0 <= i < |c| ==> c[i] >= 0
    requires d[e] == c[e] + 1
    requires forall i :: 0 <= i < e ==> d[i] == i
    requires forall i :: e < i < |c| ==> d[i] == c[i]
    ensures forall i :: 0 <= i < |d| ==> d[i] >= 0
    ensures Rank(d) == Binomial(c[e] + 1, e + 1) + RankRange(c, e + 1, |c|)
  {
    assert forall i :: 0 <= i < |d| ==> d[i] >= 0 by {
      forall i | 0 <= i < |d|
        ensures d[i] >= 0
      {
        if i > e {
          assert d[i] == c[i];
        }
      }
    }
    RankAroundRun(d, e);
    RankRangeIdentity(d, e);
    RankRangeAgree(c, d, e + 1, |c|);
  }

  /** The index of the lowest run is one less than C(c[e], e). */
  lemma RunRank(c: seq<int>, e: nat)
    requires |c| >= 1 && e == RunEnd(c, 0) && forall i :: 0 <= i < |c| ==> c[i] >= 0
    ensures RankRange(c, 0, e) + 1 == Binomial(c[e], e)
  {
    RunValues(c);
    RankRangeRun(c, e);
    HockeyStick(c[0], e);
  }

  lemma AscendingAllNonneg(c: seq<int>)
    requires |c| >= 1 && 0 <= c[0] && forall i, j :: 0 <= i < j < |c| ==> c[i] < c[j]
    ensures forall i :: 0 <= i < |c| ==> c[i] >= i
  {
    forall i | 0 <= i < |c|
      ensures c[i] >= i
    {
      AscendingGaps(c, 0, i);
    }
  }

  /** After the step the list is still ascending, and it stays below n unless the list was
      the last subset {n-k, .., n-1}, whose index is C(n, k) - 1. */
  lemma SuccShape(c: seq<int>, n: int)
    requires IsCombo(c, n)
    ensures 0 <= Succ(c)[0]
    ensures forall i, j :: 0 <= i < j < |c| ==> Succ(c)[i] < Succ(c)[j]
    ensures Succ(c)[|c| - 1] <= n
    ensures Succ(c)[|c| - 1] == n ==> Rank(c) + 1 == Binomial(n, |c|)
  {
    var e := RunEnd(c, 0);
    AscendingAllNonneg(c);
    RunValues(c);
    SuccAt(c, e);
    StepAscending(c, Succ(c), e, n);
    if Succ(c)[|c| - 1] == n {
      LastSubset(c, n);
    }
  }

  lemma StepAscending(c: seq<int>, d: seq<int>, e: nat, n: int)
    requires IsCombo(c, n) && e < |c| == |d|
    requires e == |c| - 1 || c[e] + 1 != c[e + 1]
    requires forall i :: 0 <= i <= e ==> c[i] == c[0] + i
    requires d[e] == c[e] + 1
    requires forall i :: 0 <= i < e ==> d[i] == i
    requires forall i :: e < i < |c| ==> d[i] == c[i]
    ensures 0 <= d[0]
    ensures forall i, j :: 0 <= i < j < |c| ==> d[i] < d[j]
    ensures d[|c| - 1] <= n
  {
    if e + 1 < |c| {
      assert c[e] + 1 < c[e + 1];
    }
    forall i, j | 0 <= i < j < |c|
      ensures d[i] < d[j]
    {
      if j > e {
        assert d[j] == c[j];
        assert c[e] < c[j];
        if j > e + 1 {
          assert c[e + 1] < c[j];
        }
      }
    }
  }

  /** A step that reaches n starts from the last subset {n-k, .., n-1}. */
  lemma LastSubset(c: seq<int>, n: int)
    requires IsCombo(c, n) && Succ(c)[|c| - 1] == n
    ensures Rank(c) + 1 == Binomial(n, |c|)
  {
    var k := |c|;
    var e := RunEnd(c, 0);
    RunValues(c);
    SuccAt(c, e);
    assert e == k - 1;
    assert c[0] == n - k;
    RankRangeRun(c, k);
    HockeyStick(n - k, k);
  }

  /** Every subset has an index below C(n, k). */
  lemma RankBound(c: seq<int>, n: int)
    requires IsCombo(c, n)
    ensures Rank(c) < Binomial(n, |c|)
  {
    var k := |c|;
    AscendingAllNonneg(c);
    forall i | 0 <= i < k
      ensures c[i] <= n - k + i
    {
      AscendingGaps(c, i, k - 1);
    }
    RankRangeBelowHockey(c, n - k, k);
    HockeyStick(n - k, k);
  }

  lemma {:induction false} RankRangeBelowHockey(c: seq<int>, a: nat, j: nat)
    requires j <= |c|
    requires forall i :: 0 <= i < |c| ==> c[i] >= 0
    requires forall i :: 0 <= i < j ==> c[i] <= a + i
    ensures RankRange(c, 0, j) <= HockeySum(a, j)
  {
    if j > 0 {
      RankRangeBelowHockey(c, a, j - 1);
      BinomialMono(c[j - 1], a + j - 1, j);
    }
  }

  /** The subsets visited from c on, in order, until the top member reaches n. */
  function Walk(c: seq<int>, n: int): (w: seq<seq<int>>)
    requires IsCombo(c, n)
    decreases Binomial(n, |c|) - Rank(c)
  {
    SuccRank(c, n);
    SuccShape(c, n);
    RankBound(c, n);
    var d := Succ(c);
    if d[|d| - 1] >= n then [c] else [c] + Walk(d, n)
  }

  /** The walk from c lists C(n, k) - rank(c) subsets, the i-th of them with index rank(c) + i. */
  ghost predicate WalkMeans(c: seq<int>, n: int, w: seq<seq<int>>)
    requires IsCombo(c, n)
  {
    && |w| == Binomial(n, |c|) - Rank(c)
    && forall i :: 0 <= i < |w| ==> IsCombo(w[i], n) && |w[i]| == |c| && Rank(w[i]) == Rank(c) + i
  }

  lemma {:induction false} WalkFacts(c: seq<int>, n: int)
    requires IsCombo(c, n)
    ensures WalkMeans(c, n, Walk(c, n))
    decreases Binomial(n, |c|) - Rank(c)
  {
    SuccRank(c, n);
    SuccShape(c, n);
    RankBound(c, n);
    var d := Succ(c);
    if d[|d| - 1] < n {
      WalkFacts(d, n);
      WalkCons(c, n, d, Walk(d, n));
    }
  }

  lemma WalkCons(c: seq<int>, n: int, d: seq<int>, w: seq<seq<int>>)
    requires IsCombo(c, n) && IsCombo(d, n) && |d| == |c| && Rank(d) == Rank(c) + 1
    requires WalkMeans(d, n, w)
    ensures WalkMeans(c, n, [c] + w)
  {
  }

  lemma FirstIsCombo(k: nat, n: int)
    requires 1 <= k <= n
    ensures IsCombo(First(k), n)
    ensures Rank(First(k)) == 0
  {
    RankRangeIdentity(First(k), k);
  }

  /** From the first subset the walk lists exactly C(n, k) subsets, pairwise distinct, each an
      ascending list of k members of {0, .., n-1}. */
  lemma AllSubsets(k: nat, n: int)
    requires 1 <= k <= n
    ensures IsCombo(First(k), n)
    ensures |Walk(First(k), n)| == Binomial(n, k)
    ensures forall i :: 0 <= i < |Walk(First(k), n)| ==>
              IsCombo(Walk(First(k), n)[i], n) && |Walk(First(k), n)[i]| == k
    ensures forall i, j :: 0 <= i < j < |Walk(First(k), n)| ==> Walk(First(k), n)[i] != Walk(First(k), n)[j]
  {
    FirstIsCombo(k, n);
    WalkFacts(First(k), n);
  }
}

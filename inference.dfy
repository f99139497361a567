/** The enumeration of the hidden hands (transverseAllHands) and the draw from the posterior
    (sample). The enumeration hands out the unknown cards rank by rank to the next seat
    ("player a"), records every split that gives that seat its full hand, and keeps a running
    sum of the splits' weights as the posterior's distribution function. */
module Inference {
  import opened Encoding

  // ---------------------------------------------------------------------------
  // What the enumeration reads
  // ---------------------------------------------------------------------------

  /** The cards no seat is known to hold, the full deck, my initial hand, and which seat
      player a is (0 is the landlord). */
  datatype Context = Context(unknown: Histogram, fullCards: Histogram, myInitial: Histogram, playerA: int)

  predicate ContextReady(ctx: Context)
  {
    |ctx.unknown| == |ctx.fullCards| == |ctx.myInitial| == MAX_CARD_TYPE_NUM
  }

  /** The landlord holds 12 cards at the start, a peasant 9. */
  function MaxCards(playerA: int): int
  {
    9 + 3 * (if playerA == 0 then 1 else 0)
  }

  /** a[0] + ... + a[n-1]. */
  function SumTo(a: seq<int>, n: nat): int
    requires n <= |a|
  {
    if n == 0 then 0 else SumTo(a, n - 1) + a[n - 1]
  }

  function Min(a: int, b: int): int
  {
    if a <= b then a else b
  }

  /** x keeps a's count at rank q, or (from rank cur on) adds at least one unknown card
      without passing four. */
  predicate Kept(ctx: Context, cur: int, a: Histogram, x: Histogram, q: int)
    requires ContextReady(ctx) && |a| == |x| == MAX_CARD_TYPE_NUM && 0 <= q < MAX_CARD_TYPE_NUM
  {
    x[q] == a[q] || (cur <= q && a[q] < x[q] <= 4 && x[q] - a[q] <= ctx.unknown[q])
  }

  /** x is a full hand for player a that grows a only by unknown cards from rank cur on. */
  predicate Extends(ctx: Context, cur: int, a: Histogram, x: Histogram)
    requires ContextReady(ctx) && |a| == MAX_CARD_TYPE_NUM
  {
    && |x| == MAX_CARD_TYPE_NUM
    && SumTo(x, MAX_CARD_TYPE_NUM) == MaxCards(ctx.playerA)
    && forall q :: 0 <= q < MAX_CARD_TYPE_NUM ==> Kept(ctx, cur, a, x, q)
  }

  // ---------------------------------------------------------------------------
  // The splits, in the order the enumeration visits them
  // ---------------------------------------------------------------------------

  /** Player a's hands the search from rank cur records, starting from known hand a: a itself
      once it is full; nothing past JOKER; otherwise every admissible count at rank cur in
      increasing order, each followed by the search from the next rank. */
  function Enumerate(ctx: Context, cur: int, a: Histogram): seq<Histogram>
    requires ContextReady(ctx) && |a| == MAX_CARD_TYPE_NUM && 0 <= cur <= MAX_CARD_TYPE_NUM
    decreases MAX_CARD_TYPE_NUM - cur, 1, 0
  {
    if SumTo(a, MAX_CARD_TYPE_NUM) == MaxCards(ctx.playerA) then [a]
    else if cur > BIG_JOKER then []
    else
      var bound := Min(4 - a[cur], ctx.unknown[cur]);
      if bound < 0 then [] else Branches(ctx, cur, a, bound + 1)
  }

  /** The splits the loop at rank cur records for the counts 0 .. n-1 added there. The loop
      breaks at the first count that would overfill the hand, and so skips every larger one. */
  function Branches(ctx: Context, cur: int, a: Histogram, n: nat): seq<Histogram>
    requires ContextReady(ctx) && |a| == MAX_CARD_TYPE_NUM && 0 <= cur <= BIG_JOKER
    requires n <= Min(4 - a[cur], ctx.unknown[cur]) + 1
    decreases MAX_CARD_TYPE_NUM - cur, 0, n
  {
    if n == 0 then []
    else
      Branches(ctx, cur, a, n - 1) +
      (if SumTo(a, MAX_CARD_TYPE_NUM) + (n - 1) <= MaxCards(ctx.playerA)
       then Enumerate(ctx, cur + 1, a[cur := a[cur] + (n - 1)]) else [])
  }

  /** The branch for count i at rank cur. */
  function Branch(ctx: Context, cur: int, a: Histogram, i: int): seq<Histogram>
    requires ContextReady(ctx) && |a| == MAX_CARD_TYPE_NUM && 0 <= cur <= BIG_JOKER
  {
    if SumTo(a, MAX_CARD_TYPE_NUM) + i <= MaxCards(ctx.playerA)
    then Enumerate(ctx, cur + 1, a[cur := a[cur] + i]) else []
  }

  lemma BranchesNext(ctx: Context, cur: int, a: Histogram, i: nat)
    requires ContextReady(ctx) && |a| == MAX_CARD_TYPE_NUM && 0 <= cur <= BIG_JOKER
    requires i + 1 <= Min(4 - a[cur], ctx.unknown[cur]) + 1
    ensures Branches(ctx, cur, a, i + 1) == Branches(ctx, cur, a, i) + Branch(ctx, cur, a, i)
  {
  }

  /** After the loop's break every larger count adds nothing. */
  lemma {:induction false} BranchesSkip(ctx: Context, cur: int, a: Histogram, i: nat, n: nat)
    requires ContextReady(ctx) && |a| == MAX_CARD_TYPE_NUM && 0 <= cur <= BIG_JOKER
    requires i <= n <= Min(4 - a[cur], ctx.unknown[cur]) + 1
    requires SumTo(a, MAX_CARD_TYPE_NUM) + i > MaxCards(ctx.playerA)
    ensures Branches(ctx, cur, a, n) == Branches(ctx, cur, a, i)
    decreases n
  {
    if n > i {
      BranchesSkip(ctx, cur, a, i, n - 1);
    }
  }

  /** Where the loop of transverseAllHands stops, it has recorded all of Enumerate. */
  lemma SpreadEnds(ctx: Context, cur: int, a: Histogram, i: nat, n: nat)
    requires ContextReady(ctx) && |a| == MAX_CARD_TYPE_NUM && 0 <= cur <= BIG_JOKER
    requires SumTo(a, MAX_CARD_TYPE_NUM) != MaxCards(ctx.playerA)
    requires n == Min(4 - a[cur], ctx.unknown[cur]) + 1 && i <= n
    requires i == n || SumTo(a, MAX_CARD_TYPE_NUM) + i > MaxCards(ctx.playerA)
    ensures Enumerate(ctx, cur, a) == Branches(ctx, cur, a, i)
  {
    if i < n {
      BranchesSkip(ctx, cur, a, i, n);
    }
  }

  /** Every recorded split is a full hand for player a that grows a only by unknown cards from
      rank cur on, at most four of a rank: the size and the per-rank bounds of each split. */
  lemma {:induction false} EnumerateSound(ctx: Context, cur: int, a: Histogram)
    requires ContextReady(ctx) && |a| == MAX_CARD_TYPE_NUM && 0 <= cur <= MAX_CARD_TYPE_NUM
    ensures forall x :: x in Enumerate(ctx, cur, a) ==> Extends(ctx, cur, a, x)
    decreases MAX_CARD_TYPE_NUM - cur, 1, 0
  {
    if SumTo(a, MAX_CARD_TYPE_NUM) == MaxCards(ctx.playerA) {
      assert forall q :: 0 <= q < MAX_CARD_TYPE_NUM ==> Kept(ctx, cur, a, a, q);
    } else if cur <= BIG_JOKER {
      var bound := Min(4 - a[cur], ctx.unknown[cur]);
      if bound >= 0 {
        BranchesSound(ctx, cur, a, bound + 1);
      }
    }
  }

  lemma {:induction false} BranchesSound(ctx: Context, cur: int, a: Histogram, n: nat)
    requires ContextReady(ctx) && |a| == MAX_CARD_TYPE_NUM && 0 <= cur <= BIG_JOKER
    requires n <= Min(4 - a[cur], ctx.unknown[cur]) + 1
    ensures forall x :: x in Branches(ctx, cur, a, n) ==> Extends(ctx, cur, a, x)
    ensures forall x :: x in Branches(ctx, cur, a, n) ==> |x| == MAX_CARD_TYPE_NUM && x[cur] < a[cur] + n
    decreases MAX_CARD_TYPE_NUM - cur, 0, n
  {
    if n > 0 {
      BranchesSound(ctx, cur, a, n - 1);
      BranchesNext(ctx, cur, a, n - 1);
      if SumTo(a, MAX_CARD_TYPE_NUM) + (n - 1) <= MaxCards(ctx.playerA) {
        var b := a[cur := a[cur] + (n - 1)];
        EnumerateSound(ctx, cur + 1, b);
        forall x | x in Enumerate(ctx, cur + 1, b)
          ensures Extends(ctx, cur, a, x) && x[cur] == a[cur] + (n - 1)
        {
          KeptLift(ctx, cur, cur + 1, a, b, x);
        }
      }
    }
  }

  /** What x keeps of b from rank cur + 1 on, it keeps of a from rank cur on, when b only adds
      admissible cards at rank cur. */
  lemma KeptLift(ctx: Context, cur: int, next: int, a: Histogram, b: Histogram, x: Histogram)
    requires ContextReady(ctx) && |a| == MAX_CARD_TYPE_NUM && 0 <= cur <= BIG_JOKER && next == cur + 1
    requires |b| == MAX_CARD_TYPE_NUM && b == a[cur := b[cur]] && a[cur] <= b[cur] <= Min(4 - a[cur], ctx.unknown[cur]) + a[cur]
    requires Extends(ctx, next, b, x)
    ensures Extends(ctx, cur, a, x) && x[cur] == b[cur]
  {
    assert Kept(ctx, next, b, x, cur);
    forall q | 0 <= q < MAX_CARD_TYPE_NUM
      ensures Kept(ctx, cur, a, x, q)
    {
      assert Kept(ctx, next, b, x, q);
    }
  }

  // ---------------------------------------------------------------------------
  // What the enumeration records
  // ---------------------------------------------------------------------------

  /** The recorded distribution function, the recorded hands, the normaliser (the running sum
      of the weights) and the other opponent's hand as last written. */
  datatype Tally = Tally(cumulative: seq<real>, hands: seq<EncodedCards>, normaliser: real, b: Histogram)

  /** The other opponent's hand for split a: what of the deck neither a nor I hold, from
      NINE on; ranks below NINE keep what b held. */
  function OthersHand(ctx: Context, a: Histogram, b: Histogram): (d: Histogram)
    requires ContextReady(ctx) && |a| == |b| == MAX_CARD_TYPE_NUM
    ensures |d| == MAX_CARD_TYPE_NUM
  {
    seq(MAX_CARD_TYPE_NUM, r requires 0 <= r < MAX_CARD_TYPE_NUM =>
      if r < START_CARD then b[r] else ctx.fullCards[r] - a[r] - ctx.myInitial[r])
  }

  /** The likelihood of the move history given split x, read from a table of likelihoods; a
      split the table leaves out weighs nothing. */
  function WeightOf(weight: map<Histogram, real>, x: Histogram): real
  {
    if x in weight then weight[x] else 0.0
  }

  /** Recording split x: the normaliser grows by its weight and is appended to the
      distribution function, the packed split is appended to the hands. */
  function Leaf(ctx: Context, weight: map<Histogram, real>, t: Tally, x: Histogram): (u: Tally)
    requires ContextReady(ctx) && Encodable(x) && |t.b| == MAX_CARD_TYPE_NUM
    ensures |u.b| == MAX_CARD_TYPE_NUM
  {
    var w := t.normaliser + WeightOf(weight, x);
    Tally(t.cumulative + [w], t.hands + [Packed(x)], w, OthersHand(ctx, x, t.b))
  }

  predicate AllEncodable(xs: seq<Histogram>)
  {
    forall i :: 0 <= i < |xs| ==> Encodable(xs[i])
  }

  /** Recording the splits xs in order. */
  function Fold(ctx: Context, weight: map<Histogram, real>, t: Tally, xs: seq<Histogram>): (u: Tally)
    requires ContextReady(ctx) && AllEncodable(xs) && |t.b| == MAX_CARD_TYPE_NUM
    ensures |u.b| == MAX_CARD_TYPE_NUM
  {
    if xs == [] then t
    else
      var init := xs[..|xs| - 1];
      assert AllEncodable(init) by {
        forall i | 0 <= i < |init| ensures Encodable(init[i]) { assert init[i] == xs[i]; }
      }
      Leaf(ctx, weight, Fold(ctx, weight, t, init), xs[|xs| - 1])
  }

  lemma FoldOne(ctx: Context, weight: map<Histogram, real>, t: Tally, x: Histogram)
    requires ContextReady(ctx) && Encodable(x) && |t.b| == MAX_CARD_TYPE_NUM
    ensures AllEncodable([x]) && Fold(ctx, weight, t, [x]) == Leaf(ctx, weight, t, x)
  {
    assert [x][..0] == [];
  }

  lemma {:induction false} FoldAppend(ctx: Context, weight: map<Histogram, real>, t: Tally, xs: seq<Histogram>, ys: seq<Histogram>)
    requires ContextReady(ctx) && AllEncodable(xs) && AllEncodable(ys) && |t.b| == MAX_CARD_TYPE_NUM
    ensures AllEncodable(xs + ys)
    ensures Fold(ctx, weight, t, xs + ys) == Fold(ctx, weight, Fold(ctx, weight, t, xs), ys)
    decreases |ys|
  {
    var zs := xs + ys;
    assert AllEncodable(zs) by {
      forall i | 0 <= i < |zs| ensures Encodable(zs[i]) {
        if i < |xs| { assert zs[i] == xs[i]; } else { assert zs[i] == ys[i - |xs|]; }
      }
    }
    if ys == [] {
      assert zs == xs;
    } else {
      var init := ys[..|ys| - 1];
      assert AllEncodable(init) by {
        forall i | 0 <= i < |init| ensures Encodable(init[i]) { assert init[i] == ys[i]; }
      }
      FoldAppend(ctx, weight, t, xs, init);
      assert zs[..|zs| - 1] == xs + init;
      assert zs[|zs| - 1] == ys[|ys| - 1];
    }
  }

  /** The packed forms of splits. */
  function Packs(xs: seq<Histogram>): (ps: seq<EncodedCards>)
    requires AllEncodable(xs)
    ensures |ps| == |xs|
  {
    seq(|xs|, i requires 0 <= i < |xs| => Packed(xs[i]))
  }

  /** Recording appends one packed hand and one distribution value per split, in order, and the
      last value written is the new normaliser. */
  lemma {:induction false} FoldRecords(ctx: Context, weight: map<Histogram, real>, t: Tally, xs: seq<Histogram>)
    requires ContextReady(ctx) && AllEncodable(xs) && |t.b| == MAX_CARD_TYPE_NUM
    ensures Fold(ctx, weight, t, xs).hands == t.hands + Packs(xs)
    ensures |Fold(ctx, weight, t, xs).cumulative| == |t.cumulative| + |xs|
    ensures Fold(ctx, weight, t, xs).cumulative[..|t.cumulative|] == t.cumulative
    ensures xs != [] ==> Fold(ctx, weight, t, xs).cumulative[|t.cumulative| + |xs| - 1] == Fold(ctx, weight, t, xs).normaliser
    decreases |xs|
  {
    if xs != [] {
      var init := xs[..|xs| - 1];
      assert AllEncodable(init) by {
        forall i | 0 <= i < |init| ensures Encodable(init[i]) { assert init[i] == xs[i]; }
      }
      FoldRecords(ctx, weight, t, init);
      var p := Fold(ctx, weight, t, init);
      assert Packs(xs) == Packs(init) + [Packed(xs[|xs| - 1])];
      assert p.cumulative + [p.normaliser + WeightOf(weight, xs[|xs| - 1])] == Fold(ctx, weight, t, xs).cumulative;
    }
  }

  predicate NonDecreasing(c: seq<real>)
  {
    forall i, j :: 0 <= i < j < |c| ==> c[i] <= c[j]
  }

  /** With non-negative weights the recorded distribution function never decreases and ends at
      the normaliser, provided it did so before. */
  lemma {:induction false} FoldCdf(ctx: Context, weight: map<Histogram, real>, t: Tally, xs: seq<Histogram>)
    requires ContextReady(ctx) && AllEncodable(xs) && |t.b| == MAX_CARD_TYPE_NUM
    requires forall i :: 0 <= i < |xs| ==> WeightOf(weight, xs[i]) >= 0.0
    requires NonDecreasing(t.cumulative) && forall i :: 0 <= i < |t.cumulative| ==> t.cumulative[i] <= t.normaliser
    ensures NonDecreasing(Fold(ctx, weight, t, xs).cumulative)
    ensures forall i :: 0 <= i < |Fold(ctx, weight, t, xs).cumulative| ==>
              Fold(ctx, weight, t, xs).cumulative[i] <= Fold(ctx, weight, t, xs).normaliser
    decreases |xs|
  {
    if xs != [] {
      var init := xs[..|xs| - 1];
      assert AllEncodable(init) by {
        forall i | 0 <= i < |init| ensures Encodable(init[i]) { assert init[i] == xs[i]; }
      }
      assert forall i :: 0 <= i < |init| ==> WeightOf(weight, init[i]) >= 0.0 by {
        forall i | 0 <= i < |init| ensures WeightOf(weight, init[i]) >= 0.0 { assert init[i] == xs[i]; }
      }
      FoldCdf(ctx, weight, t, init);
      var p := Fold(ctx, weight, t, init);
      assert WeightOf(weight, xs[|xs| - 1]) >= 0.0;
      AppendCdf(p.cumulative, p.normaliser, p.normaliser + WeightOf(weight, xs[|xs| - 1]));
    }
  }

  lemma AppendCdf(c: seq<real>, n: real, w: real)
    requires NonDecreasing(c) && (forall i :: 0 <= i < |c| ==> c[i] <= n) && n <= w
    ensures NonDecreasing(c + [w]) && forall i :: 0 <= i < |c + [w]| ==> (c + [w])[i] <= w
  {
  }

  /** Recording the splits of the loop up to count i+1 is recording those up to i, then the
      branch for count i. */
  lemma StepFold(ctx: Context, weight: map<Histogram, real>, t0: Tally, cur: int, a: Histogram, i: nat, before: Tally)
    requires ContextReady(ctx) && Encodable(a) && 0 <= cur <= BIG_JOKER && |t0.b| == MAX_CARD_TYPE_NUM
    requires i <= Min(4 - a[cur], ctx.unknown[cur]) && SumTo(a, MAX_CARD_TYPE_NUM) + i <= MaxCards(ctx.playerA)
    requires AllEncodable(Branches(ctx, cur, a, i)) && before == Fold(ctx, weight, t0, Branches(ctx, cur, a, i))
    ensures Encodable(a[cur := a[cur] + i])
    ensures AllEncodable(Branches(ctx, cur, a, i + 1))
    ensures (EnumerateEncodable(ctx, cur + 1, a[cur := a[cur] + i]);
      Fold(ctx, weight, t0, Branches(ctx, cur, a, i + 1)) ==
      Fold(ctx, weight, before, Enumerate(ctx, cur + 1, a[cur := a[cur] + i])))
  {
    var b := a[cur := a[cur] + i];
    EnumerateEncodable(ctx, cur + 1, b);
    BranchesNext(ctx, cur, a, i);
    FoldAppend(ctx, weight, t0, Branches(ctx, cur, a, i), Enumerate(ctx, cur + 1, b));
  }

  // ---------------------------------------------------------------------------
  // Each full hand once
  // ---------------------------------------------------------------------------

  predicate Distinct(xs: seq<Histogram>)
  {
    forall i, j :: 0 <= i < j < |xs| ==> xs[i] != xs[j]
  }

  /** No split is recorded twice: the branches differ in their count at rank cur. */
  lemma {:induction false} EnumerateDistinct(ctx: Context, cur: int, a: Histogram)
    requires ContextReady(ctx) && |a| == MAX_CARD_TYPE_NUM && 0 <= cur <= MAX_CARD_TYPE_NUM
    ensures Distinct(Enumerate(ctx, cur, a))
    decreases MAX_CARD_TYPE_NUM - cur, 1, 0
  {
    if SumTo(a, MAX_CARD_TYPE_NUM) != MaxCards(ctx.playerA) && cur <= BIG_JOKER {
      var bound := Min(4 - a[cur], ctx.unknown[cur]);
      if bound >= 0 {
        BranchesDistinct(ctx, cur, a, bound + 1);
      }
    }
  }

  lemma {:induction false} BranchesDistinct(ctx: Context, cur: int, a: Histogram, n: nat)
    requires ContextReady(ctx) && |a| == MAX_CARD_TYPE_NUM && 0 <= cur <= BIG_JOKER
    requires n <= Min(4 - a[cur], ctx.unknown[cur]) + 1
    ensures Distinct(Branches(ctx, cur, a, n))
    decreases MAX_CARD_TYPE_NUM - cur, 0, n
  {
    if n > 0 {
      var m: nat := n - 1;
      var older := Branches(ctx, cur, a, m);
      var newer := Branch(ctx, cur, a, m);
      BranchesDistinct(ctx, cur, a, m);
      BranchesBelow(ctx, cur, a, m);
      BranchDistinct(ctx, cur, a, m);
      BranchesNext(ctx, cur, a, m);
      DistinctAppend(older, newer, cur, a[cur] + m);
    }
  }

  lemma BranchesBelow(ctx: Context, cur: int, a: Histogram, n: nat)
    requires ContextReady(ctx) && |a| == MAX_CARD_TYPE_NUM && 0 <= cur <= BIG_JOKER
    requires n <= Min(4 - a[cur], ctx.unknown[cur]) + 1
    ensures forall x :: x in Branches(ctx, cur, a, n) ==> |x| == MAX_CARD_TYPE_NUM && x[cur] < a[cur] + n
  {
    BranchesSound(ctx, cur, a, n);
  }

  /** The branch for count i records no split twice, and each of its splits holds a[cur] + i
      at rank cur. */
  lemma BranchDistinct(ctx: Context, cur: int, a: Histogram, i: int)
    requires ContextReady(ctx) && |a| == MAX_CARD_TYPE_NUM && 0 <= cur <= BIG_JOKER
    ensures Distinct(Branch(ctx, cur, a, i))
    ensures forall x :: x in Branch(ctx, cur, a, i) ==> |x| == MAX_CARD_TYPE_NUM && x[cur] == a[cur] + i
    decreases MAX_CARD_TYPE_NUM - cur, 0, 0
  {
    if SumTo(a, MAX_CARD_TYPE_NUM) + i <= MaxCards(ctx.playerA) {
      var b := a[cur := a[cur] + i];
      EnumerateDistinct(ctx, cur + 1, b);
      EnumerateSound(ctx, cur + 1, b);
      forall x | x in Enumerate(ctx, cur + 1, b)
        ensures x[cur] == a[cur] + i
      {
        assert Kept(ctx, cur + 1, b, x, cur);
      }
    }
  }

  lemma DistinctAppend(xs: seq<Histogram>, ys: seq<Histogram>, cur: int, v: int)
    requires 0 <= cur < MAX_CARD_TYPE_NUM && Distinct(xs) && Distinct(ys)
    requires forall x :: x in xs ==> |x| == MAX_CARD_TYPE_NUM && x[cur] < v
    requires forall y :: y in ys ==> |y| == MAX_CARD_TYPE_NUM && y[cur] == v
    ensures Distinct(xs + ys)
  {
    var zs := xs + ys;
    forall i, j | 0 <= i < j < |zs|
      ensures zs[i] != zs[j]
    {
      if j >= |xs| && i < |xs| {
        assert zs[i] in xs && zs[j] in ys;
      }
    }
  }

  // ---------------------------------------------------------------------------
  // Every consistent full hand is recorded
  // ---------------------------------------------------------------------------

  /** From rank cur on, the known counts are a legal hand and no unknown count is negative. */
  predicate Sensible(ctx: Context, cur: int, a: Histogram)
    requires ContextReady(ctx) && |a| == MAX_CARD_TYPE_NUM
  {
    forall q :: cur <= q < MAX_CARD_TYPE_NUM && 0 <= q ==> 0 <= a[q] <= 4 && ctx.unknown[q] >= 0
  }

  lemma {:induction false} SumGrows(x: Histogram, a: Histogram, n: nat, cur: int)
    requires |x| == |a| && n <= |a| && forall q :: 0 <= q < n ==> a[q] <= x[q]
    ensures SumTo(a, n) <= SumTo(x, n)
    ensures 0 <= cur < n ==> SumTo(a, n) + (x[cur] - a[cur]) <= SumTo(x, n)
    ensures SumTo(a, n) == SumTo(x, n) ==> x[..n] == a[..n]
  {
    if n > 0 {
      SumGrows(x, a, n - 1, cur);
      assert x[..n] == x[..n - 1] + [x[n - 1]] && a[..n] == a[..n - 1] + [a[n - 1]];
    }
  }

  /** Every full hand that grows a only by unknown cards from rank cur on is recorded. */
  lemma {:induction false} EnumerateComplete(ctx: Context, cur: int, a: Histogram, x: Histogram)
    requires ContextReady(ctx) && |a| == MAX_CARD_TYPE_NUM && 0 <= cur <= MAX_CARD_TYPE_NUM
    requires Sensible(ctx, cur, a) && Extends(ctx, cur, a, x)
    ensures x in Enumerate(ctx, cur, a)
    decreases MAX_CARD_TYPE_NUM - cur
  {
    ExtendsGrows(ctx, cur, a, x);
    SumGrows(x, a, MAX_CARD_TYPE_NUM, cur);
    if SumTo(a, MAX_CARD_TYPE_NUM) == MaxCards(ctx.playerA) {
      assert x == x[..MAX_CARD_TYPE_NUM] && a == a[..MAX_CARD_TYPE_NUM];
    } else if cur > BIG_JOKER {
      ExtendsAtEnd(ctx, cur, a, x);
      assert false;
    } else {
      var i := x[cur] - a[cur];
      var b := a[cur := x[cur]];
      var bound := Min(4 - a[cur], ctx.unknown[cur]);
      KeptNext(ctx, cur, cur + 1, a, b, x);
      EnumerateComplete(ctx, cur + 1, b, x);
      BranchesContain(ctx, cur, a, i, bound + 1);
    }
  }

  lemma ExtendsGrows(ctx: Context, cur: int, a: Histogram, x: Histogram)
    requires ContextReady(ctx) && |a| == MAX_CARD_TYPE_NUM && Extends(ctx, cur, a, x)
    ensures forall q :: 0 <= q < MAX_CARD_TYPE_NUM ==> a[q] <= x[q]
  {
    forall q | 0 <= q < MAX_CARD_TYPE_NUM
      ensures a[q] <= x[q]
    {
      assert Kept(ctx, cur, a, x, q);
    }
  }

  /** Past JOKER nothing can be added, so a hand extending a is a. */
  lemma ExtendsAtEnd(ctx: Context, cur: int, a: Histogram, x: Histogram)
    requires ContextReady(ctx) && |a| == MAX_CARD_TYPE_NUM && cur == MAX_CARD_TYPE_NUM && Extends(ctx, cur, a, x)
    ensures x == a
  {
    forall q | 0 <= q < MAX_CARD_TYPE_NUM
      ensures x[q] == a[q]
    {
      assert Kept(ctx, cur, a, x, q);
    }
  }

  /** Fixing rank cur at x's count: the count is admissible and x extends the result from
      the next rank on. */
  lemma KeptNext(ctx: Context, cur: int, next: int, a: Histogram, b: Histogram, x: Histogram)
    requires ContextReady(ctx) && |a| == MAX_CARD_TYPE_NUM && 0 <= cur <= BIG_JOKER && next == cur + 1
    requires Sensible(ctx, cur, a) && Extends(ctx, cur, a, x) && b == a[cur := x[cur]]
    ensures 0 <= x[cur] - a[cur] <= Min(4 - a[cur], ctx.unknown[cur])
    ensures Sensible(ctx, next, b) && Extends(ctx, next, b, x)
  {
    assert Kept(ctx, cur, a, x, cur);
    forall q | 0 <= q < MAX_CARD_TYPE_NUM
      ensures Kept(ctx, next, b, x, q)
    {
      assert Kept(ctx, cur, a, x, q);
    }
  }

  /** The branch for count i is part of the loop's splits for every n above i. */
  lemma {:induction false} BranchesContain(ctx: Context, cur: int, a: Histogram, i: nat, n: nat)
    requires ContextReady(ctx) && |a| == MAX_CARD_TYPE_NUM && 0 <= cur <= BIG_JOKER
    requires i < n <= Min(4 - a[cur], ctx.unknown[cur]) + 1
    ensures forall x :: x in Branch(ctx, cur, a, i) ==> x in Branches(ctx, cur, a, n)
    decreases n
  {
    BranchesNext(ctx, cur, a, n - 1);
    if i < n - 1 {
      BranchesContain(ctx, cur, a, i, n - 1);
    }
  }

  /** The recorded splits are exactly the full hands that grow a only by unknown cards, each
      recorded once. */
  lemma EnumerateExactlyOnce(ctx: Context, cur: int, a: Histogram, x: Histogram)
    requires ContextReady(ctx) && |a| == MAX_CARD_TYPE_NUM && 0 <= cur <= MAX_CARD_TYPE_NUM
    requires Sensible(ctx, cur, a)
    ensures x in Enumerate(ctx, cur, a) <==> Extends(ctx, cur, a, x)
    ensures Distinct(Enumerate(ctx, cur, a))
  {
    EnumerateDistinct(ctx, cur, a);
    EnumerateSound(ctx, cur, a);
    if Extends(ctx, cur, a, x) {
      EnumerateComplete(ctx, cur, a, x);
    }
  }

  /** Splits of an encodable known hand are encodable. */
  lemma EnumerateEncodable(ctx: Context, cur: int, a: Histogram)
    requires ContextReady(ctx) && Encodable(a) && 0 <= cur <= MAX_CARD_TYPE_NUM
    ensures AllEncodable(Enumerate(ctx, cur, a))
  {
    var xs := Enumerate(ctx, cur, a);
    EnumerateSound(ctx, cur, a);
    forall i | 0 <= i < |xs|
      ensures Encodable(xs[i])
    {
      var x := xs[i];
      assert x in xs;
      forall q | START_CARD <= q < MAX_CARD_TYPE_NUM
        ensures 0 <= x[q] <= 15
      {
        assert Kept(ctx, cur, a, x, q);
      }
    }
  }

  // ---------------------------------------------------------------------------
  // transverseAllHands and sample
  // ---------------------------------------------------------------------------

  /** The cards each opponent and I have played so far. */
  datatype Played = Played(a: EncodedCards, b: EncodedCards, c: EncodedCards)

  /** The current hands of player a, player b and me for the initial split hand. The
      subtractions are on 64-bit words, as in the source. */
  function CurrentHands(hand: EncodedCards, mine: EncodedCards, played: Played): (hs: seq<EncodedCards>)
  {
    [Sub64(hand, played.a), Sub64(Sub64(Sub64(FULL_CARDS, hand), mine), played.b), Sub64(mine, played.c)]
  }

  /** When nothing borrows, the three current hands are the card counts the source means:
      player a's split less what a played, the rest of the deck (neither a's nor mine) less
      what b played, and my hand less what I played. */
  lemma CurrentHandsCounts(x: Histogram, mine: Histogram, pa: Histogram, pb: Histogram, pc: Histogram)
    requires Encodable(x) && Encodable(mine) && Encodable(pa) && Encodable(pb) && Encodable(pc)
    requires forall r :: START_CARD <= r < MAX_CARD_TYPE_NUM ==>
               pa[r] <= x[r] && x[r] + mine[r] + pb[r] <= FullHistogram()[r] && pc[r] <= mine[r]
    ensures Encodable(HistMinus(x, pa)) && Encodable(HistMinus(mine, pc))
    ensures Encodable(HistMinus(HistMinus(HistMinus(FullHistogram(), x), mine), pb))
    ensures CurrentHands(Packed(x), Packed(mine), Played(Packed(pa), Packed(pb), Packed(pc))) ==
              [Packed(HistMinus(x, pa)),
               Packed(HistMinus(HistMinus(HistMinus(FullHistogram(), x), mine), pb)),
               Packed(HistMinus(mine, pc))]
  {
    FullCardsIsFullDeck();
    var full := FullHistogram();
    Sub64Encode(x, pa);
    Sub64Encode(mine, pc);
    Sub64Encode(full, x);
    var rest := HistMinus(full, x);
    Sub64Encode(rest, mine);
    var others := HistMinus(rest, mine);
    Sub64Encode(others, pb);
  }

  /** The first index whose value reaches x, or the last index when none does. */
  function FirstReaching(c: seq<real>, x: real): (i: int)
    requires |c| > 0
    ensures 0 <= i < |c|
    ensures forall j :: 0 <= j < i ==> c[j] < x
    ensures c[i] >= x || i == |c| - 1
  {
    if |c| == 1 || c[0] >= x then 0 else 1 + FirstReaching(c[1..], x)
  }

  /** That index is the only one with those properties. */
  lemma FirstReachingUnique(c: seq<real>, x: real, l: int)
    requires 0 <= l < |c| && (forall j :: 0 <= j < l ==> c[j] < x) && (c[l] >= x || l == |c| - 1)
    ensures FirstReaching(c, x) == l
  {
    var f := FirstReaching(c, x);
  }

  /** The binary search of sample over the first n values of the distribution function. */
  method LowerBound(cdf: seq<real>, n: int, x: real) returns (l: int)
    requires 0 < n <= |cdf|
    ensures 0 <= l < n
    ensures NonDecreasing(cdf[..n]) ==> l == FirstReaching(cdf[..n], x)
  {
    l := 0;
    var r := n - 1;
    while l < r
      invariant 0 <= l <= r < n
      invariant NonDecreasing(cdf[..n]) ==> forall j :: 0 <= j < l ==> cdf[j] < x
      invariant NonDecreasing(cdf[..n]) ==> cdf[r] >= x || r == n - 1
      decreases r - l
    {
      var mid := (l + r) / 2;
      if cdf[mid] < x {
        l := mid + 1;
      } else {
        r := mid;
      }
    }
    if NonDecreasing(cdf[..n]) {
      FirstReachingUnique(cdf[..n], x, l);
    }
  }

  class Inference {
    const ctx: Context
    /** The likelihood of the move history for each split of player a's hand (see WeightOf). */
    const weight: map<Histogram, real>
    const encodedMine: EncodedCards
    const played: Played
    var cumulative: seq<real>
    var possibleHands: seq<EncodedCards>
    /** The function-static running sum of the weights. */
    var normaliser: real

    constructor (ctx: Context, weight: map<Histogram, real>, encodedMine: EncodedCards, played: Played)
      ensures this.ctx == ctx && this.weight == weight && this.encodedMine == encodedMine && this.played == played
      ensures cumulative == [] && possibleHands == [] && normaliser == 0.0
    {
      this.ctx := ctx;
      this.weight := weight;
      this.encodedMine := encodedMine;
      this.played := played;
      cumulative := [];
      possibleHands := [];
      normaliser := 0.0;
    }

    /** transverseAllHands: records every split from rank cur on, in the order of Enumerate,
        and gives knownA back as it found it. The ghost parameters name the hand knownA holds
        and the tally before the call. */
    method TransverseAllHands(cur: int, knownA: array<int>, knownB: array<int>, ghost a: Histogram, ghost t: Tally)
      requires ContextReady(ctx) && 0 <= cur <= MAX_CARD_TYPE_NUM
      requires knownA.Length == MAX_CARD_TYPE_NUM && knownB.Length == MAX_CARD_TYPE_NUM && knownA != knownB
      requires knownA[..] == a && Encodable(a)
      requires t == Tally(cumulative, possibleHands, normaliser, knownB[..])
      modifies this, knownA, knownB
      ensures knownA[..] == a
      ensures (EnumerateEncodable(ctx, cur, a);
        Tally(cumulative, possibleHands, normaliser, knownB[..]) == Fold(ctx, weight, t, Enumerate(ctx, cur, a)))
      decreases MAX_CARD_TYPE_NUM - cur, 3
    {
      EnumerateEncodable(ctx, cur, a);
      var total := CountCards(knownA);
      var maxCards := MaxCards(ctx.playerA);
      if total == maxCards {
        Record(knownA, knownB);
        FoldOne(ctx, weight, t, a);
        return;
      }
      if cur > BIG_JOKER {
        return;
      }
      var bound := Min(4 - knownA[cur], ctx.unknown[cur]);
      if bound < 0 {
        return;
      }
      Spread(cur, total, bound, knownA, knownB, a, t);
    }

    /** The loop of transverseAllHands at rank cur, below the leaf: tries 0, 1, ... more cards
        of rank cur for player a, as many as remain unknown and fit in a rank and in the hand. */
    method Spread(cur: int, total: int, bound: int, knownA: array<int>, knownB: array<int>, ghost a: Histogram, ghost t: Tally)
      requires ContextReady(ctx) && 0 <= cur <= BIG_JOKER
      requires knownA.Length == MAX_CARD_TYPE_NUM && knownB.Length == MAX_CARD_TYPE_NUM && knownA != knownB
      requires knownA[..] == a && Encodable(a)
      requires total == SumTo(a, MAX_CARD_TYPE_NUM) != MaxCards(ctx.playerA)
      requires bound == Min(4 - a[cur], ctx.unknown[cur]) >= 0
      requires t == Tally(cumulative, possibleHands, normaliser, knownB[..])
      modifies this, knownA, knownB
      ensures knownA[..] == a
      ensures (EnumerateEncodable(ctx, cur, a);
        Tally(cumulative, possibleHands, normaliser, knownB[..]) == Fold(ctx, weight, t, Enumerate(ctx, cur, a)))
      decreases MAX_CARD_TYPE_NUM - cur, 2
    {
      EnumerateEncodable(ctx, cur, a);
      var maxCards := MaxCards(ctx.playerA);
      ghost var n: nat := bound + 1;
      var i: nat := 0;
      // the source's loop breaks at the first count that would overfill the hand
      while i <= bound && total + i <= maxCards
        invariant i <= n
        invariant Spanned(cur, i, knownA, knownB, a, t)
        decreases bound + 1 - i
      {
        Turn(cur, i, knownA, knownB, a, t);
        i := i + 1;
      }
      SpreadEnds(ctx, cur, a, i, n);
    }

    /** knownA holds a, and the tally has gone from t through the splits of the counts
        below i at rank cur. */
    ghost predicate Spanned(cur: int, i: nat, knownA: array<int>, knownB: array<int>, a: Histogram, t: Tally)
      requires ContextReady(ctx) && 0 <= cur <= BIG_JOKER && |a| == MAX_CARD_TYPE_NUM && |t.b| == MAX_CARD_TYPE_NUM
      requires i <= Min(4 - a[cur], ctx.unknown[cur]) + 1
      reads this, knownA, knownB
    {
      knownA[..] == a && AllEncodable(Branches(ctx, cur, a, i)) &&
      Tally(cumulative, possibleHands, normaliser, knownB[..]) == Fold(ctx, weight, t, Branches(ctx, cur, a, i))
    }

    /** One turn of the loop of transverseAllHands, from the splits of the counts below i
        to those of the counts up to i. */
    method Turn(cur: int, i: nat, knownA: array<int>, knownB: array<int>, ghost a: Histogram, ghost t: Tally)
      requires ContextReady(ctx) && 0 <= cur <= BIG_JOKER
      requires knownA.Length == MAX_CARD_TYPE_NUM && knownB.Length == MAX_CARD_TYPE_NUM && knownA != knownB
      requires knownA[..] == a && Encodable(a) && |t.b| == MAX_CARD_TYPE_NUM
      requires i <= Min(4 - a[cur], ctx.unknown[cur]) && SumTo(a, MAX_CARD_TYPE_NUM) + i <= MaxCards(ctx.playerA)
      requires Spanned(cur, i, knownA, knownB, a, t)
      modifies this, knownA, knownB
      ensures Spanned(cur, i + 1, knownA, knownB, a, t)
      decreases MAX_CARD_TYPE_NUM - cur, 1
    {
      ghost var before := Tally(cumulative, possibleHands, normaliser, knownB[..]);
      StepFold(ctx, weight, t, cur, a, i, before);
      Descend(cur, i, knownA, knownB, a, before);
    }

    /** One turn of the loop of transverseAllHands: gives player a i more cards of rank cur,
        records every split from rank cur + 1 on and takes the i cards back. */
    method Descend(cur: int, i: nat, knownA: array<int>, knownB: array<int>, ghost a: Histogram, ghost t: Tally)
      requires ContextReady(ctx) && 0 <= cur <= BIG_JOKER
      requires knownA.Length == MAX_CARD_TYPE_NUM && knownB.Length == MAX_CARD_TYPE_NUM && knownA != knownB
      requires knownA[..] == a && Encodable(a[cur := a[cur] + i])
      requires t == Tally(cumulative, possibleHands, normaliser, knownB[..])
      modifies this, knownA, knownB
      ensures knownA[..] == a
      ensures (EnumerateEncodable(ctx, cur + 1, a[cur := a[cur] + i]);
        Tally(cumulative, possibleHands, normaliser, knownB[..]) == Fold(ctx, weight, t, Enumerate(ctx, cur + 1, a[cur := a[cur] + i])))
      decreases MAX_CARD_TYPE_NUM - cur, 0
    {
      knownA[cur] := knownA[cur] + i;
      assert knownA[..] == a[cur := a[cur] + i];
      TransverseAllHands(cur + 1, knownA, knownB, a[cur := a[cur] + i], t);
      knownA[cur] := knownA[cur] - i;
      assert knownA[..] == a;
    }

    /** The leaf of transverseAllHands: writes the other opponent's hand into knownB, adds the
        split's weight to the normaliser and records the new normaliser and the packed split. */
    method Record(knownA: array<int>, knownB: array<int>)
      requires ContextReady(ctx) && knownA != knownB
      requires knownA.Length == MAX_CARD_TYPE_NUM && knownB.Length == MAX_CARD_TYPE_NUM && Encodable(knownA[..])
      modifies this, knownB
      ensures Tally(cumulative, possibleHands, normaliser, knownB[..]) ==
              Leaf(ctx, weight, Tally(old(cumulative), old(possibleHands), old(normaliser), old(knownB[..])), knownA[..])
    {
      ghost var b := knownB[..];
      for i := START_CARD to MAX_CARD_TYPE_NUM
        invariant forall r :: 0 <= r < MAX_CARD_TYPE_NUM ==>
                    knownB[r] == if START_CARD <= r < i then ctx.fullCards[r] - knownA[r] - ctx.myInitial[r] else b[r]
        modifies knownB
      {
        knownB[i] := ctx.fullCards[i] - knownA[i] - ctx.myInitial[i];
      }
      assert knownB[..] == OthersHand(ctx, knownA[..], b);
      var w := WeightOf(weight, knownA[..]);
      normaliser := normaliser + w;
      cumulative := cumulative + [normaliser];
      var packed := ToEncodedCards(knownA[..]);
      possibleHands := possibleHands + [packed];
    }

    method CountCards(knownA: array<int>) returns (total: int)
      requires knownA.Length == MAX_CARD_TYPE_NUM
      ensures total == SumTo(knownA[..], MAX_CARD_TYPE_NUM)
    {
      total := 0;
      for i := 0 to MAX_CARD_TYPE_NUM
        invariant total == SumTo(knownA[..], i)
      {
        total := total + knownA[i];
      }
    }

    /** sample: the split at the first index whose distribution value reaches x (the last
        index when none does), turned into the current hands of player a, player b and me. */
    method Sample(x: real) returns (hands: seq<EncodedCards>)
      requires 0 < |possibleHands| <= |cumulative|
      ensures NonDecreasing(cumulative[..|possibleHands|]) ==>
                hands == CurrentHands(possibleHands[FirstReaching(cumulative[..|possibleHands|], x)], encodedMine, played)
      ensures exists l :: 0 <= l < |possibleHands| && hands == CurrentHands(possibleHands[l], encodedMine, played)
    {
      var l := LowerBound(cumulative, |possibleHands|, x);
      var hand := possibleHands[l];
      hands := [Sub64(hand, played.a), Sub64(Sub64(Sub64(FULL_CARDS, hand), encodedMine), played.b), Sub64(encodedMine, played.c)];
    }
  }
}

/** generateAppendix: every choice of kicker ranks for a main part, as one packed word each.
    The eligible ranks are listed in rank order; a choice is an ascending list of positions in
    that list (the set bits of the source's subset mask), and the choices are visited in the
    order of Gosper's hack, which is the walk of Combinations. */
module Kickers {
  import opened Encoding
  import opened Hands
  import opened State
  import opened Combinations

  /** seq_length, num_appendixes and appendix_type once the hand to answer has had its say. */
  datatype AppendixParams = AppendixParams(seqLength: int, numAppendixes: int, appendixType: int)

  /** A triplet or quadruple to answer imposes its own length, kicker count and kicker kind;
      after a pass the caller's parameters stand. */
  function ParamsFor(last: Hand, seqLength: int, numAppendixes: int, appendixType: int): AppendixParams
  {
    if last.kind == TRIPLET then AppendixParams(last.length, 1, last.appendix)
    else if last.kind == QUADRUPLE then AppendixParams(last.length, 2, last.appendix)
    else AppendixParams(seqLength, numAppendixes, appendixType)
  }

  /** What generateAppendix needs of its parameters: at least one kicker rank to choose
      (Gosper's step is undefined on the empty subset) and a kicker multiplicity that is not
      negative. */
  predicate ParamsReady(p: AppendixParams)
  {
    p.seqLength * p.numAppendixes >= 1 && p.appendixType >= 0
  }

  /** A rank can serve as a kicker when I hold at least `t` of it and it lies outside the main
      part, the ranks endType - seqLength + 1 .. endType. */
  predicate Eligible(h: Histogram, endType: int, seqLength: int, t: int, r: int)
    requires |h| == MAX_CARD_TYPE_NUM && 0 <= r < MAX_CARD_TYPE_NUM
  {
    h[r] >= t && (r > endType || r <= endType - seqLength)
  }

  /** The eligible ranks among START_CARD .. hi-1, in rank order. */
  function EligibleUpTo(h: Histogram, endType: int, seqLength: int, t: int, hi: int): seq<int>
    requires |h| == MAX_CARD_TYPE_NUM && START_CARD <= hi <= MAX_CARD_TYPE_NUM
    decreases hi
  {
    if hi == START_CARD then []
    else EligibleUpTo(h, endType, seqLength, t, hi - 1) + (if Eligible(h, endType, seqLength, t, hi - 1) then [hi - 1] else [])
  }

  /** The list holds each eligible rank below hi, once, in increasing order. */
  lemma EligibleFacts(h: Histogram, endType: int, seqLength: int, t: int, hi: int)
    requires |h| == MAX_CARD_TYPE_NUM && START_CARD <= hi <= MAX_CARD_TYPE_NUM
    ensures forall i :: 0 <= i < |EligibleUpTo(h, endType, seqLength, t, hi)| ==>
              START_CARD <= EligibleUpTo(h, endType, seqLength, t, hi)[i] < hi && Eligible(h, endType, seqLength, t, EligibleUpTo(h, endType, seqLength, t, hi)[i])
    ensures forall i, j :: 0 <= i < j < |EligibleUpTo(h, endType, seqLength, t, hi)| ==> EligibleUpTo(h, endType, seqLength, t, hi)[i] < EligibleUpTo(h, endType, seqLength, t, hi)[j]
    ensures forall r :: START_CARD <= r < hi && Eligible(h, endType, seqLength, t, r) ==> r in EligibleUpTo(h, endType, seqLength, t, hi)
  {
    EligibleMembers(h, endType, seqLength, t, hi);
    EligibleAscending(h, endType, seqLength, t, hi);
    EligibleComplete(h, endType, seqLength, t, hi);
  }

  lemma {:induction false} EligibleMembers(h: Histogram, endType: int, seqLength: int, t: int, hi: int)
    requires |h| == MAX_CARD_TYPE_NUM && START_CARD <= hi <= MAX_CARD_TYPE_NUM
    ensures forall i :: 0 <= i < |EligibleUpTo(h, endType, seqLength, t, hi)| ==>
              START_CARD <= EligibleUpTo(h, endType, seqLength, t, hi)[i] < hi && Eligible(h, endType, seqLength, t, EligibleUpTo(h, endType, seqLength, t, hi)[i])
    decreases hi
  {
    if hi > START_CARD {
      EligibleMembers(h, endType, seqLength, t, hi - 1);
      var e0 := EligibleUpTo(h, endType, seqLength, t, hi - 1);
      var e := EligibleUpTo(h, endType, seqLength, t, hi);
      var last := if Eligible(h, endType, seqLength, t, hi - 1) then [hi - 1] else [];
      assert e == e0 + last;
      forall i | 0 <= i < |e|
        ensures START_CARD <= e[i] < hi && Eligible(h, endType, seqLength, t, e[i])
      {
        if i < |e0| {
          assert e[i] == e0[i];
        } else {
          assert e[i] == hi - 1 && last == [hi - 1];
        }
      }
    }
  }

  lemma {:induction false} EligibleAscending(h: Histogram, endType: int, seqLength: int, t: int, hi: int)
    requires |h| == MAX_CARD_TYPE_NUM && START_CARD <= hi <= MAX_CARD_TYPE_NUM
    ensures forall i, j :: 0 <= i < j < |EligibleUpTo(h, endType, seqLength, t, hi)| ==> EligibleUpTo(h, endType, seqLength, t, hi)[i] < EligibleUpTo(h, endType, seqLength, t, hi)[j]
    decreases hi
  {
    if hi > START_CARD {
      EligibleAscending(h, endType, seqLength, t, hi - 1);
      EligibleMembers(h, endType, seqLength, t, hi - 1);
      var e0 := EligibleUpTo(h, endType, seqLength, t, hi - 1);
      var e := EligibleUpTo(h, endType, seqLength, t, hi);
      var last := if Eligible(h, endType, seqLength, t, hi - 1) then [hi - 1] else [];
      assert e == e0 + last;
      forall i, j | 0 <= i < j < |e|
        ensures e[i] < e[j]
      {
        assert e[i] == e0[i];
        if j >= |e0| {
          assert e[j] == hi - 1;
        } else {
          assert e[j] == e0[j];
        }
      }
    }
  }

  lemma {:induction false} EligibleComplete(h: Histogram, endType: int, seqLength: int, t: int, hi: int)
    requires |h| == MAX_CARD_TYPE_NUM && START_CARD <= hi <= MAX_CARD_TYPE_NUM
    ensures forall r :: START_CARD <= r < hi && Eligible(h, endType, seqLength, t, r) ==> r in EligibleUpTo(h, endType, seqLength, t, hi)
    decreases hi
  {
    if hi > START_CARD {
      EligibleComplete(h, endType, seqLength, t, hi - 1);
    }
  }

  /** A list of ranks 0..14 in increasing order. */
  predicate RankList(e: seq<int>)
  {
    && (forall i :: 0 <= i < |e| ==> 0 <= e[i] < MAX_CARD_TYPE_NUM)
    && (forall i, j :: 0 <= i < j < |e| ==> e[i] < e[j])
  }

  /** Positions into a list of length n. */
  predicate Positions(c: seq<int>, n: int)
  {
    forall i :: 0 <= i < |c| ==> 0 <= c[i] < n
  }

  /** The kicker word for the first m chosen positions: t copies of each chosen rank. */
  function KickOf(e: seq<int>, c: seq<int>, t: nat, m: nat): EncodedCards
    requires RankList(e) && Positions(c, |e|) && m <= |c|
  {
    if m == 0 then NO_CARDS else AddToEncodedCards(e[c[m - 1]], KickOf(e, c, t, m - 1), t)
  }

  /** The kicker words of a list of choices. */
  function Kicks(e: seq<int>, w: seq<seq<int>>, t: nat): (ks: seq<EncodedCards>)
    requires RankList(e) && forall i :: 0 <= i < |w| ==> IsCombo(w[i], |e|)
    ensures |ks| == |w|
  {
    if |w| == 0 then []
    else
      ComboPositions(w[0], |e|);
      [KickOf(e, w[0], t, |w[0]|)] + Kicks(e, w[1..], t)
  }

  lemma ComboPositions(c: seq<int>, n: int)
    requires IsCombo(c, n)
    ensures Positions(c, n)
  {
    forall i | 0 <= i < |c|
      ensures 0 <= c[i] < n
    {
      if 0 < i < |c| - 1 {
        assert c[0] < c[i] < c[|c| - 1];
      }
    }
  }

  lemma {:induction false} KicksAt(e: seq<int>, w: seq<seq<int>>, t: nat)
    requires RankList(e) && forall i :: 0 <= i < |w| ==> IsCombo(w[i], |e|)
    ensures forall i :: 0 <= i < |w| ==> Positions(w[i], |e|) && Kicks(e, w, t)[i] == KickOf(e, w[i], t, |w[i]|)
  {
    forall i | 0 <= i < |w|
      ensures Positions(w[i], |e|)
    {
      ComboPositions(w[i], |e|);
    }
    if |w| > 0 {
      KicksAt(e, w[1..], t);
    }
  }

  /** The eligible ranks and the number of kicker ranks to choose, after the overrides. */
  function EligibleFor(s: DoudizhuState, endType: int, seqLength: int, numAppendixes: int, appendixType: int)
    : seq<int>
    requires |s.myCardCounter| == MAX_CARD_TYPE_NUM
  {
    var p := ParamsFor(s.lastAction, seqLength, numAppendixes, appendixType);
    EligibleUpTo(s.myCardCounter, endType, p.seqLength, p.appendixType, MAX_CARD_TYPE_NUM)
  }

  function NeededFor(last: Hand, seqLength: int, numAppendixes: int, appendixType: int): int
  {
    var p := ParamsFor(last, seqLength, numAppendixes, appendixType);
    p.seqLength * p.numAppendixes
  }

  /** What generateAppendix returns. */
  function AppendixSpec(s: DoudizhuState, endType: int, seqLength: int, numAppendixes: int, appendixType: int)
    : seq<EncodedCards>
    requires |s.myCardCounter| == MAX_CARD_TYPE_NUM
    requires ParamsReady(ParamsFor(s.lastAction, seqLength, numAppendixes, appendixType))
  {
    var p := ParamsFor(s.lastAction, seqLength, numAppendixes, appendixType);
    var e := EligibleFor(s, endType, seqLength, numAppendixes, appendixType);
    var needed := NeededFor(s.lastAction, seqLength, numAppendixes, appendixType);
    EligibleFacts(s.myCardCounter, endType, p.seqLength, p.appendixType, MAX_CARD_TYPE_NUM);
    if |e| < needed then []
    else
      AllSubsets(needed, |e|);
      Kicks(e, Walk(First(needed), |e|), p.appendixType)
  }

  /** The loop over NINE..JOKER collecting the eligible ranks. */
  method EligibleRanks(h: Histogram, endType: int, seqLength: int, t: int) returns (useable: seq<int>)
    requires |h| == MAX_CARD_TYPE_NUM
    ensures useable == EligibleUpTo(h, endType, seqLength, t, MAX_CARD_TYPE_NUM)
  {
    useable := [];
    var i := START_CARD;
    while i <= BIG_JOKER
      invariant START_CARD <= i <= MAX_CARD_TYPE_NUM
      invariant useable == EligibleUpTo(h, endType, seqLength, t, i)
    {
      if h[i] >= t && (i > endType || i <= endType - seqLength) {
        useable := useable + [i];
      }
      i := i + 1;
    }
  }

  /** The inner loop reading a subset back as ranks: t copies of each chosen rank. */
  method KickerWord(e: seq<int>, c: seq<int>, t: nat) returns (appendix: EncodedCards)
    requires RankList(e) && Positions(c, |e|)
    ensures appendix == KickOf(e, c, t, |c|)
  {
    appendix := NO_CARDS;
    var j := 0;
    while j < |c|
      invariant 0 <= j <= |c|
      invariant appendix == KickOf(e, c, t, j)
    {
      appendix := AddToEncodedCards(e[c[j]], appendix, t);
      j := j + 1;
    }
  }

  /** The overrides at the head of generateAppendix. */
  method Overrides(last: Hand, seqLength: int, numAppendixes: int, appendixType: int) returns (p: AppendixParams)
    ensures p == ParamsFor(last, seqLength, numAppendixes, appendixType)
  {
    var seqLen := seqLength;
    var num := numAppendixes;
    var t := appendixType;
    if last.kind == TRIPLET {
      seqLen := last.length;
      num := 1;
      t := last.appendix;
    } else if last.kind == QUADRUPLE {
      seqLen := last.length;
      num := 2;
      t := last.appendix;
    }
    p := AppendixParams(seqLen, num, t);
  }

  /** generateAppendix(end_type, seq_length, num_appendixes, appendix_type). The count of
      eligible ranks is the length of their list. */
  method GenerateAppendix(s: DoudizhuState, endType: int, seqLength: int, numAppendixes: int, appendixType: int)
    returns (appendixes: seq<EncodedCards>)
    requires |s.myCardCounter| == MAX_CARD_TYPE_NUM
    requires ParamsReady(ParamsFor(s.lastAction, seqLength, numAppendixes, appendixType))
    ensures appendixes == AppendixSpec(s, endType, seqLength, numAppendixes, appendixType)
  {
    var p := Overrides(s.lastAction, seqLength, numAppendixes, appendixType);
    var needed := p.seqLength * p.numAppendixes;
    var useable := EligibleRanks(s.myCardCounter, endType, p.seqLength, p.appendixType);
    appendixes := [];
    if |useable| < needed {
      return;
    }
    EligibleFacts(s.myCardCounter, endType, p.seqLength, p.appendixType, MAX_CARD_TYPE_NUM);
    appendixes := Enumerate(useable, needed, p.appendixType);
  }

  /** The Gosper loop: every needed-subset of the eligible list, in the order of the walk. */
  method Enumerate(e: seq<int>, needed: nat, t: nat) returns (appendixes: seq<EncodedCards>)
    requires RankList(e) && 1 <= needed <= |e|
    ensures IsCombo(First(needed), |e|) && AllCombos(Walk(First(needed), |e|), |e|)
    ensures appendixes == Kicks(e, Walk(First(needed), |e|), t)
  {
    var n := |e|;
    AllSubsets(needed, n);
    ghost var all := Walk(First(needed), n);
    appendixes := [];
    var subset := First(needed);
    while subset[needed - 1] < n
      invariant |subset| == needed && IsCombo(subset, n + 1)
      invariant subset[needed - 1] < n ==> AllCombos(Walk(subset, n), n)
      invariant subset[needed - 1] < n ==> appendixes + Kicks(e, Walk(subset, n), t) == Kicks(e, all, t)
      invariant subset[needed - 1] >= n ==> appendixes == Kicks(e, all, t)
      decreases Binomial(n, needed) - Rank(subset)
    {
      ComboPositions(subset, n);
      var appendix := KickerWord(e, subset, t);
      KicksStep(e, subset, t);
      appendixes := appendixes + [appendix];
      subset := Succ(subset);
    }
  }

  /** One turn of the Gosper loop: the kicker word of the current subset comes first, then
      those of the walk from its successor; the index goes up by one and stays below C(n, k). */
  lemma KicksStep(e: seq<int>, c: seq<int>, t: nat)
    requires RankList(e) && IsCombo(c, |e|)
    ensures Positions(c, |e|) && AllCombos(Walk(c, |e|), |e|)
    ensures IsCombo(Succ(c), |e| + 1) && |Succ(c)| == |c|
    ensures Rank(c) < Binomial(|e|, |c|) && Rank(Succ(c)) == Rank(c) + 1
    ensures Succ(c)[|c| - 1] < |e| ==>
              IsCombo(Succ(c), |e|) && AllCombos(Walk(Succ(c), |e|), |e|) &&
              Kicks(e, Walk(c, |e|), t) == [KickOf(e, c, t, |c|)] + Kicks(e, Walk(Succ(c), |e|), t)
    ensures Succ(c)[|c| - 1] >= |e| ==> Kicks(e, Walk(c, |e|), t) == [KickOf(e, c, t, |c|)]
  {
    var n := |e|;
    ComboPositions(c, n);
    WalkFacts(c, n);
    WalkStep(c, n);
    RankBound(c, n);
    SuccRank(c, n);
    SuccShape(c, n);
    if Succ(c)[|c| - 1] < n {
      WalkFacts(Succ(c), n);
    }
    KicksCons(e, c, Walk(c, n), t);
  }

  predicate AllCombos(w: seq<seq<int>>, n: int)
  {
    forall i :: 0 <= i < |w| ==> IsCombo(w[i], n)
  }

  /** One step of the walk: the current subset, then the walk from its successor. */
  lemma WalkStep(c: seq<int>, n: int)
    requires IsCombo(c, n)
    ensures Succ(c)[|c| - 1] < n ==> IsCombo(Succ(c), n) && Walk(c, n) == [c] + Walk(Succ(c), n)
    ensures Succ(c)[|c| - 1] >= n ==> Walk(c, n) == [c]
  {
    SuccShape(c, n);
  }

  lemma KicksCons(e: seq<int>, c: seq<int>, w: seq<seq<int>>, t: nat)
    requires RankList(e) && IsCombo(c, |e|) && |w| >= 1 && w[0] == c
    requires forall i :: 0 <= i < |w| ==> IsCombo(w[i], |e|)
    ensures Kicks(e, w, t) == [KickOf(e, c, t, |c|)] + Kicks(e, w[1..], t)
  {
  }

  // ---------------------------------------------------------------------------
  // What the kicker list holds
  // ---------------------------------------------------------------------------

  /** The ranks at the first m chosen positions. */
  function Chosen(e: seq<int>, c: seq<int>, m: nat): (ranks: seq<int>)
    requires Positions(c, |e|) && m <= |c|
    ensures |ranks| == m
  {
    seq(m, i requires 0 <= i < m => e[c[i]])
  }

  /** A kicker word: t copies of each of the given ranks and nothing else. */
  ghost predicate KickerSet(kick: EncodedCards, ranks: seq<int>, t: int)
  {
    forall r: nat :: NumCardOfEncoded(r, kick) == if r in ranks then t else 0
  }

  /** Increasing positions pick increasing ranks. */
  lemma ChosenAscending(e: seq<int>, c: seq<int>, m: nat)
    requires RankList(e) && IsCombo(c, |e|) && m <= |c|
    ensures Positions(c, |e|) && RankList(Chosen(e, c, m))
  {
    ComboPositions(c, |e|);
  }

  /** The word built from m chosen positions holds t copies of each chosen rank, provided a
      field can hold t. */
  lemma {:induction false} KickFields(e: seq<int>, c: seq<int>, t: nat, m: nat)
    requires RankList(e) && IsCombo(c, |e|) && m <= |c| && t <= 15
    ensures Positions(c, |e|) && KickerSet(KickOf(e, c, t, m), Chosen(e, c, m), t)
  {
    ComboPositions(c, |e|);
    if m == 0 {
      forall r: nat
        ensures NumCardOfEncoded(r, NO_CARDS) == 0
      {
        ShrZero(r);
      }
    } else {
      KickFields(e, c, t, m - 1);
      var prev := KickOf(e, c, t, m - 1);
      var ct := e[c[m - 1]];
      var before := Chosen(e, c, m - 1);
      assert ct !in before by {
        forall i | 0 <= i < |before|
          ensures before[i] < ct
        {
          assert c[i] < c[m - 1];
        }
      }
      AddToEncodedCardsFields(ct, prev, t);
      assert Chosen(e, c, m) == Chosen(e, c, m - 1) + [ct];
    }
  }

  /** Two different ascending lists of one length differ in some member. */
  lemma {:induction false} AscendingDiffer(a: seq<int>, b: seq<int>) returns (r: int)
    requires |a| == |b| && a != b
    requires forall i, j :: 0 <= i < j < |a| ==> a[i] < a[j]
    requires forall i, j :: 0 <= i < j < |b| ==> b[i] < b[j]
    ensures (r in a) != (r in b)
  {
    if a[0] < b[0] {
      r := a[0];
    } else if b[0] < a[0] {
      r := b[0];
    } else {
      assert a == [a[0]] + a[1..] && b == [b[0]] + b[1..];
      r := AscendingDiffer(a[1..], b[1..]);
      assert r in a[1..] || r in b[1..];
    }
  }

  /** generateAppendix finds nothing when fewer ranks are eligible than it must choose, and
      otherwise one kicker word for each of the C(n, k) ways to choose. */
  lemma AppendixCount(s: DoudizhuState, endType: int, seqLength: int, numAppendixes: int, appendixType: int)
    requires |s.myCardCounter| == MAX_CARD_TYPE_NUM
    requires ParamsReady(ParamsFor(s.lastAction, seqLength, numAppendixes, appendixType))
    ensures var n := |EligibleFor(s, endType, seqLength, numAppendixes, appendixType)|;
      var k := NeededFor(s.lastAction, seqLength, numAppendixes, appendixType);
      && (n < k ==> AppendixSpec(s, endType, seqLength, numAppendixes, appendixType) == [])
      && (n >= k ==> |AppendixSpec(s, endType, seqLength, numAppendixes, appendixType)| == Binomial(n, k))
  {
    var n := |EligibleFor(s, endType, seqLength, numAppendixes, appendixType)|;
    var k := NeededFor(s.lastAction, seqLength, numAppendixes, appendixType);
    if n >= k {
      AllSubsets(k, n);
    }
  }

  /** With at least one copy per kicker rank, no kicker word is listed twice. */
  lemma AppendixDistinct(s: DoudizhuState, endType: int, seqLength: int, numAppendixes: int, appendixType: int)
    requires Encodable(s.myCardCounter)
    requires ParamsReady(ParamsFor(s.lastAction, seqLength, numAppendixes, appendixType))
    requires ParamsFor(s.lastAction, seqLength, numAppendixes, appendixType).appendixType >= 1
    ensures forall i, j :: 0 <= i < j < |AppendixSpec(s, endType, seqLength, numAppendixes, appendixType)| ==>
              AppendixSpec(s, endType, seqLength, numAppendixes, appendixType)[i] !=
              AppendixSpec(s, endType, seqLength, numAppendixes, appendixType)[j]
  {
    var p := ParamsFor(s.lastAction, seqLength, numAppendixes, appendixType);
    var e := EligibleFor(s, endType, seqLength, numAppendixes, appendixType);
    var k := NeededFor(s.lastAction, seqLength, numAppendixes, appendixType);
    var a := AppendixSpec(s, endType, seqLength, numAppendixes, appendixType);
    EligibleFacts(s.myCardCounter, endType, p.seqLength, p.appendixType, MAX_CARD_TYPE_NUM);
    if |e| >= k {
      AllSubsets(k, |e|);
      var w := Walk(First(k), |e|);
      KicksAt(e, w, p.appendixType);
      assert p.appendixType <= s.myCardCounter[e[0]] <= 15;
      forall i, j | 0 <= i < j < |a|
        ensures a[i] != a[j]
      {
        KicksDiffer(e, w[i], w[j], p.appendixType);
      }
    }
  }

  /** Two different choices of the same size give different kicker words. */
  lemma KicksDiffer(e: seq<int>, c: seq<int>, d: seq<int>, t: nat)
    requires RankList(e) && IsCombo(c, |e|) && IsCombo(d, |e|) && |c| == |d| && c != d
    requires 1 <= t <= 15
    ensures Positions(c, |e|) && Positions(d, |e|)
    ensures KickOf(e, c, t, |c|) != KickOf(e, d, t, |d|)
  {
    var k := |c|;
    KickFields(e, c, t, k);
    KickFields(e, d, t, k);
    ChosenAscending(e, c, k);
    ChosenAscending(e, d, k);
    var cc := Chosen(e, c, k);
    var dd := Chosen(e, d, k);
    assert cc != dd by {
      var p :| 0 <= p < k && c[p] != d[p];
      assert e[c[p]] != e[d[p]] by {
        if c[p] < d[p] {
          assert e[c[p]] < e[d[p]];
        } else {
          assert e[d[p]] < e[c[p]];
        }
      }
      assert cc[p] != dd[p];
    }
    var r := AscendingDiffer(cc, dd);
    assert 0 <= r by {
      if r in cc {
        var i :| 0 <= i < k && cc[i] == r;
      } else {
        var i :| 0 <= i < k && dd[i] == r;
      }
    }
    assert NumCardOfEncoded(r, KickOf(e, c, t, k)) != NumCardOfEncoded(r, KickOf(e, d, t, k));
  }

  /** The ranks of a kicker choice: k of them, in increasing order, each eligible. */
  predicate KickerChoice(h: Histogram, endType: int, p: AppendixParams, ranks: seq<int>, k: int)
    requires |h| == MAX_CARD_TYPE_NUM
  {
    && |ranks| == k
    && (forall i, j :: 0 <= i < j < |ranks| ==> ranks[i] < ranks[j])
    && (forall i :: 0 <= i < |ranks| ==>
          START_CARD <= ranks[i] < MAX_CARD_TYPE_NUM && Eligible(h, endType, p.seqLength, p.appendixType, ranks[i]))
  }

  /** Each kicker word holds appendix_type copies of each of k distinct eligible ranks, and
      nothing else. */
  lemma AppendixKickers(s: DoudizhuState, endType: int, seqLength: int, numAppendixes: int, appendixType: int)
    requires Encodable(s.myCardCounter)
    requires ParamsReady(ParamsFor(s.lastAction, seqLength, numAppendixes, appendixType))
    ensures forall i :: 0 <= i < |AppendixSpec(s, endType, seqLength, numAppendixes, appendixType)| ==>
              exists ranks ::
                && KickerChoice(s.myCardCounter, endType, ParamsFor(s.lastAction, seqLength, numAppendixes, appendixType),
                                ranks, NeededFor(s.lastAction, seqLength, numAppendixes, appendixType))
                && KickerSet(AppendixSpec(s, endType, seqLength, numAppendixes, appendixType)[i], ranks,
                             ParamsFor(s.lastAction, seqLength, numAppendixes, appendixType).appendixType)
  {
    var p := ParamsFor(s.lastAction, seqLength, numAppendixes, appendixType);
    var e := EligibleFor(s, endType, seqLength, numAppendixes, appendixType);
    var k := NeededFor(s.lastAction, seqLength, numAppendixes, appendixType);
    var a := AppendixSpec(s, endType, seqLength, numAppendixes, appendixType);
    EligibleFacts(s.myCardCounter, endType, p.seqLength, p.appendixType, MAX_CARD_TYPE_NUM);
    if |e| >= k {
      AllSubsets(k, |e|);
      var w := Walk(First(k), |e|);
      KicksAt(e, w, p.appendixType);
      assert p.appendixType <= s.myCardCounter[e[0]] <= 15;
      forall i | 0 <= i < |a|
        ensures exists ranks :: KickerChoice(s.myCardCounter, endType, p, ranks, k) && KickerSet(a[i], ranks, p.appendixType)
      {
        var ranks := KickerWordChoice(s.myCardCounter, endType, p, e, w[i]);
      }
    }
  }

  /** The word of one choice of positions is a kicker set over eligible ranks. */
  lemma KickerWordChoice(h: Histogram, endType: int, p: AppendixParams, e: seq<int>, c: seq<int>)
    returns (ranks: seq<int>)
    requires Encodable(h) && p.appendixType >= 0
    requires e == EligibleUpTo(h, endType, p.seqLength, p.appendixType, MAX_CARD_TYPE_NUM)
    requires RankList(e) && IsCombo(c, |e|)
    ensures Positions(c, |e|)
    ensures KickerChoice(h, endType, p, ranks, |c|) && KickerSet(KickOf(e, c, p.appendixType, |c|), ranks, p.appendixType)
  {
    EligibleMembers(h, endType, p.seqLength, p.appendixType, MAX_CARD_TYPE_NUM);
    assert p.appendixType <= h[e[0]] <= 15;
    KickFields(e, c, p.appendixType, |c|);
    ChosenAscending(e, c, |c|);
    ranks := Chosen(e, c, |c|);
    assert forall x :: 0 <= x < |c| ==> ranks[x] == e[c[x]];
  }
}

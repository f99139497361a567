/** The analysis of one played hand: its main kind, where the main part starts, how many
    ranks it spans and how many kicker cards come with each main rank. */
module Hands {
  import opened Encoding

  /** MainCardComboType. */
  const PASS: int := 0
  const SINGLE: int := 1
  const PAIR: int := 2
  const TRIPLET: int := 3
  const QUADRUPLE: int := 4
  const ROCKET: int := 5

  /** SEQ_MIN_LENGTH: the shortest chain of each kind. */
  function SeqMinLength(kind: int): (m: int)
    requires PASS <= kind <= ROCKET
    ensures 0 <= m <= 5
  {
    [0, 5, 3, 2, 2, 1][kind]
  }

  /** A struct Hand: `kind` is the source's `type`. */
  datatype Hand = Hand(combo: EncodedCards, kind: int, start: int, length: int, appendix: int)

  // ---------------------------------------------------------------------------
  // Facts about a histogram over the ranks START_CARD .. hi-1 (or lo .. JOKER)
  // ---------------------------------------------------------------------------

  /** Number of cards. */
  function Total(h: Histogram, hi: int): int
    requires |h| == MAX_CARD_TYPE_NUM && START_CARD <= hi <= MAX_CARD_TYPE_NUM
    decreases hi
  {
    if hi == START_CARD then 0 else Total(h, hi - 1) + h[hi - 1]
  }

  /** The largest count (0 over no rank). */
  function MaxCount(h: Histogram, hi: int): (m: int)
    requires |h| == MAX_CARD_TYPE_NUM && START_CARD <= hi <= MAX_CARD_TYPE_NUM
    ensures m >= 0
    decreases hi
  {
    if hi == START_CARD then 0
    else if h[hi - 1] > MaxCount(h, hi - 1) then h[hi - 1]
    else MaxCount(h, hi - 1)
  }

  /** How many ranks hold exactly v cards. */
  function NumWith(h: Histogram, v: int, hi: int): (n: int)
    requires |h| == MAX_CARD_TYPE_NUM && START_CARD <= hi <= MAX_CARD_TYPE_NUM
    ensures 0 <= n <= hi - START_CARD
    decreases hi
  {
    if hi == START_CARD then 0 else NumWith(h, v, hi - 1) + (if h[hi - 1] == v then 1 else 0)
  }

  /** The first rank at or after lo holding exactly v cards (MAX_CARD_TYPE_NUM if none). */
  function FirstWith(h: Histogram, v: int, lo: int): (r: int)
    requires |h| == MAX_CARD_TYPE_NUM && START_CARD <= lo <= MAX_CARD_TYPE_NUM
    ensures lo <= r <= MAX_CARD_TYPE_NUM
    decreases MAX_CARD_TYPE_NUM - lo
  {
    if lo == MAX_CARD_TYPE_NUM then lo else if h[lo] == v then lo else FirstWith(h, v, lo + 1)
  }

  /** The smallest rank at or after lo that is present, or BIG_JOKER when none below it is. */
  function LowestPresent(h: Histogram, lo: int): (r: int)
    requires |h| == MAX_CARD_TYPE_NUM && START_CARD <= lo <= BIG_JOKER
    ensures lo <= r <= BIG_JOKER
    decreases BIG_JOKER - lo
  {
    if lo == BIG_JOKER then lo else if h[lo] != 0 then lo else LowestPresent(h, lo + 1)
  }

  /** Division of non-negative integers rounding down (the source's `total_cards / length`);
      0 for a divisor that is not positive. */
  function Quotient(a: int, b: int): (q: int)
    ensures q >= 0
    decreases a
  {
    if b <= 0 || a < b then 0 else 1 + Quotient(a - b, b)
  }

  /** q is a / b rounded down. */
  predicate IsFloorQuotient(q: int, a: int, b: int)
  {
    b * q <= a < b * (q + 1)
  }

  lemma {:induction false} MaxCountFacts(h: Histogram, hi: int)
    requires |h| == MAX_CARD_TYPE_NUM && START_CARD <= hi <= MAX_CARD_TYPE_NUM
    ensures forall r :: START_CARD <= r < hi ==> h[r] <= MaxCount(h, hi)
    ensures MaxCount(h, hi) == 0 || exists r :: START_CARD <= r < hi && h[r] == MaxCount(h, hi)
    decreases hi
  {
    if hi > START_CARD {
      MaxCountFacts(h, hi - 1);
    }
  }

  lemma {:induction false} FirstWithFacts(h: Histogram, v: int, lo: int)
    requires |h| == MAX_CARD_TYPE_NUM && START_CARD <= lo <= MAX_CARD_TYPE_NUM
    ensures FirstWith(h, v, lo) < MAX_CARD_TYPE_NUM ==> h[FirstWith(h, v, lo)] == v
    ensures forall j :: lo <= j < FirstWith(h, v, lo) ==> h[j] != v
    decreases MAX_CARD_TYPE_NUM - lo
  {
    if lo < MAX_CARD_TYPE_NUM && h[lo] != v {
      FirstWithFacts(h, v, lo + 1);
    }
  }

  lemma {:induction false} LowestPresentFacts(h: Histogram, lo: int)
    requires |h| == MAX_CARD_TYPE_NUM && START_CARD <= lo <= BIG_JOKER
    ensures LowestPresent(h, lo) < BIG_JOKER ==> h[LowestPresent(h, lo)] != 0
    ensures forall j :: lo <= j < LowestPresent(h, lo) ==> h[j] == 0
    decreases BIG_JOKER - lo
  {
    if lo < BIG_JOKER && h[lo] == 0 {
      LowestPresentFacts(h, lo + 1);
    }
  }

  /** The first rank holding v is the rank that holds v after ranks that do not. */
  lemma FirstWithIs(h: Histogram, v: int, r: int)
    requires |h| == MAX_CARD_TYPE_NUM && START_CARD <= r < MAX_CARD_TYPE_NUM && h[r] == v
    requires forall j :: START_CARD <= j < r ==> h[j] != v
    ensures FirstWith(h, v, START_CARD) == r
  {
    FirstWithFacts(h, v, START_CARD);
  }

  lemma LowestPresentIs(h: Histogram, r: int)
    requires |h| == MAX_CARD_TYPE_NUM && START_CARD <= r <= BIG_JOKER
    requires r < BIG_JOKER ==> h[r] != 0
    requires forall j :: START_CARD <= j < r ==> h[j] == 0
    ensures LowestPresent(h, START_CARD) == r
  {
    LowestPresentFacts(h, START_CARD);
  }

  lemma {:induction false} NumWithPositive(h: Histogram, v: int, r: int, hi: int)
    requires |h| == MAX_CARD_TYPE_NUM && START_CARD <= r < hi <= MAX_CARD_TYPE_NUM
    requires h[r] == v
    ensures NumWith(h, v, hi) >= 1
    decreases hi
  {
    if r < hi - 1 {
      NumWithPositive(h, v, r, hi - 1);
    }
  }

  /** No rank below hi holding more than all of them can be counted. */
  lemma {:induction false} NumWithAbsent(h: Histogram, v: int, hi: int)
    requires |h| == MAX_CARD_TYPE_NUM && START_CARD <= hi <= MAX_CARD_TYPE_NUM
    requires forall r :: START_CARD <= r < hi ==> h[r] < v
    ensures NumWith(h, v, hi) == 0
    decreases hi
  {
    if hi > START_CARD {
      NumWithAbsent(h, v, hi - 1);
    }
  }

  /** The ranks holding v cards each contribute v to the total. */
  lemma {:induction false} NumWithTotal(h: Histogram, v: int, hi: int)
    requires Encodable(h) && START_CARD <= hi <= MAX_CARD_TYPE_NUM && v >= 0
    ensures NumWith(h, v, hi) * v <= Total(h, hi)
    decreases hi
  {
    if hi > START_CARD {
      NumWithTotal(h, v, hi - 1);
      var a := NumWith(h, v, hi - 1);
      assert (a + 1) * v == a * v + v;
    }
  }

  lemma {:induction false} TotalZero(h: Histogram, hi: int)
    requires Encodable(h) && START_CARD <= hi <= MAX_CARD_TYPE_NUM
    ensures Total(h, hi) >= 0
    ensures Total(h, hi) == 0 <==> forall r :: START_CARD <= r < hi ==> h[r] == 0
    decreases hi
  {
    if hi > START_CARD {
      TotalZero(h, hi - 1);
    }
  }

  /** Two distinct ranks together hold no more than the total. */
  lemma {:induction false} TotalTwo(h: Histogram, q: int, r: int, hi: int)
    requires Encodable(h) && START_CARD <= q < hi && START_CARD <= r < hi && q != r && hi <= MAX_CARD_TYPE_NUM
    ensures h[q] + h[r] <= Total(h, hi)
    decreases hi
  {
    TotalAtLeast(h, q, hi - 1);
    TotalAtLeast(h, r, hi - 1);
    TotalZero(h, hi - 1);
    if q < hi - 1 && r < hi - 1 {
      TotalTwo(h, q, r, hi - 1);
    }
  }

  lemma {:induction false} TotalAtLeast(h: Histogram, q: int, hi: int)
    requires Encodable(h) && START_CARD <= hi <= MAX_CARD_TYPE_NUM
    ensures START_CARD <= q < hi ==> h[q] <= Total(h, hi)
    decreases hi
  {
    if hi > START_CARD {
      TotalAtLeast(h, q, hi - 1);
      TotalZero(h, hi - 1);
    }
  }

  /** The total over all ranks is the part below the jokers plus the two jokers. */
  lemma TotalSplit(h: Histogram)
    requires Encodable(h)
    ensures Total(h, MAX_CARD_TYPE_NUM) == Total(h, SMALL_JOKER) + h[SMALL_JOKER] + h[BIG_JOKER]
    ensures Total(h, SMALL_JOKER) == 0 <==> forall r :: START_CARD <= r < SMALL_JOKER ==> h[r] == 0
  {
    TotalZero(h, SMALL_JOKER);
  }

  lemma {:induction false} QuotientBounds(a: int, b: int)
    requires a >= 0 && b >= 1
    ensures IsFloorQuotient(Quotient(a, b), a, b)
    decreases a
  {
    if a >= b {
      QuotientBounds(a - b, b);
      var q := Quotient(a - b, b);
      assert b * (q + 1) == b * q + b;
      assert b * (q + 2) == b * (q + 1) + b;
    }
  }

  lemma {:induction false} QuotientOne(a: nat)
    ensures Quotient(a, 1) == a
  {
    if a > 0 {
      QuotientOne(a - 1);
    }
  }

  lemma MulMono(a: int, b: int, c: int)
    requires a >= 0 && b <= c
    ensures a * b <= a * c
  {
  }

  /** A floor quotient of a total holding len ranks of m cards each is at least m. */
  lemma QuotientAtLeast(total: int, len: int, m: int)
    requires len >= 1 && len * m <= total && m >= 0
    ensures Quotient(total, len) >= m
    ensures IsFloorQuotient(Quotient(total, len), total, len)
  {
    var q := Quotient(total, len);
    QuotientBounds(total, len);
    if q < m {
      MulMono(len, q + 1, m);
    }
  }

  // ---------------------------------------------------------------------------
  // The classification
  // ---------------------------------------------------------------------------

  /** What the Hand constructor computes from a histogram. */
  function Classify(h: Histogram): (hand: Hand)
    requires Encodable(h)
  {
    var m := MaxCount(h, MAX_CARD_TYPE_NUM);
    if m == 0 then
      Hand(Packed(h), PASS, START_CARD, 0, 0)
    else if LowestPresent(h, START_CARD) == SMALL_JOKER && Total(h, MAX_CARD_TYPE_NUM) == 2 then
      Hand(Packed(h), ROCKET, SMALL_JOKER, 2, 0)
    else
      Hand(Packed(h), m, FirstWith(h, m, START_CARD), NumWith(h, m, MAX_CARD_TYPE_NUM),
           Quotient(Total(h, MAX_CARD_TYPE_NUM), NumWith(h, m, MAX_CARD_TYPE_NUM)) - m)
  }

  /** The variables of the constructor's scan after the ranks START_CARD .. i-1. */
  datatype Scan = Scan(maxFreqCard: int, maxFreq: int, maxFreqLength: int, minCard: int, totalCards: int)

  /** One turn of the scan, at rank i. */
  function ScanStep(h: Histogram, i: int, sc: Scan): Scan
    requires |h| == MAX_CARD_TYPE_NUM && 0 <= i < MAX_CARD_TYPE_NUM
  {
    var c := h[i];
    var sc1 :=
      if c > sc.maxFreq then sc.(maxFreq := c, maxFreqCard := i, maxFreqLength := 1)
      else if c == sc.maxFreq then sc.(maxFreqLength := sc.maxFreqLength + 1)
      else sc;
    sc1.(minCard := if c != 0 && i < sc.minCard then i else sc.minCard, totalCards := sc.totalCards + c)
  }

  function ScanTo(h: Histogram, i: int): Scan
    requires |h| == MAX_CARD_TYPE_NUM && START_CARD <= i <= MAX_CARD_TYPE_NUM
    decreases i
  {
    if i == START_CARD then Scan(START_CARD, 0, 0, BIG_JOKER, 0)
    else ScanStep(h, i - 1, ScanTo(h, i - 1))
  }

  lemma ScanToNext(h: Histogram, i: int)
    requires |h| == MAX_CARD_TYPE_NUM && START_CARD <= i < MAX_CARD_TYPE_NUM
    ensures ScanTo(h, i + 1) == ScanStep(h, i, ScanTo(h, i))
  {
  }

  /** What the scan has found after the ranks START_CARD .. i-1: the running total, the
      largest count, the first rank holding it and how many ranks hold it. */
  ghost predicate ScanMeans(h: Histogram, i: int, sc: Scan)
    requires |h| == MAX_CARD_TYPE_NUM && START_CARD <= i <= MAX_CARD_TYPE_NUM
  {
    && sc.totalCards == Total(h, i)
    && sc.maxFreq == MaxCount(h, i)
    && sc.maxFreqLength == NumWith(h, sc.maxFreq, i)
    && (sc.maxFreq == 0 ==> sc.maxFreqCard == START_CARD)
    && (sc.maxFreq > 0 ==> START_CARD <= sc.maxFreqCard < i && h[sc.maxFreqCard] == sc.maxFreq)
    && (forall j :: START_CARD <= j < sc.maxFreqCard ==> h[j] < sc.maxFreq)
  }

  lemma {:induction false} ScanMeaning(h: Histogram, i: int)
    requires Encodable(h) && START_CARD <= i <= MAX_CARD_TYPE_NUM
    ensures ScanMeans(h, i, ScanTo(h, i))
    decreases i
  {
    if i > START_CARD {
      ScanMeaning(h, i - 1);
      ScanMeaningStep(h, i, ScanTo(h, i - 1));
    }
  }

  /** One turn of the scan keeps its meaning. */
  lemma ScanMeaningStep(h: Histogram, hi: int, sc: Scan)
    requires Encodable(h) && START_CARD < hi <= MAX_CARD_TYPE_NUM && ScanMeans(h, hi - 1, sc)
    ensures ScanMeans(h, hi, ScanStep(h, hi - 1, sc))
  {
    MaxCountFacts(h, hi - 1);
    if h[hi - 1] > sc.maxFreq {
      NumWithAbsent(h, h[hi - 1], hi - 1);
    }
  }

  /** After i ranks the scan's minimum is the lowest rank present so far, or JOKER. */
  lemma {:induction false} ScanLowest(h: Histogram, i: int)
    requires Encodable(h) && START_CARD <= i <= MAX_CARD_TYPE_NUM
    ensures var sc := ScanTo(h, i);
      && START_CARD <= sc.minCard <= BIG_JOKER
      && (sc.minCard < BIG_JOKER ==> sc.minCard < i && h[sc.minCard] != 0)
      && (forall j :: START_CARD <= j < i && j < sc.minCard ==> h[j] == 0)
    decreases i
  {
    if i > START_CARD {
      ScanLowest(h, i - 1);
    }
  }

  /** At the end of the scan its variables determine the classification. */
  lemma ScanClassify(h: Histogram)
    requires Encodable(h)
    ensures var sc := ScanTo(h, MAX_CARD_TYPE_NUM);
      Classify(h) ==
        if sc.maxFreq == 0 then Hand(Packed(h), PASS, START_CARD, 0, 0)
        else if sc.minCard == SMALL_JOKER && sc.totalCards == 2 then Hand(Packed(h), ROCKET, SMALL_JOKER, 2, 0)
        else Hand(Packed(h), sc.maxFreq, sc.maxFreqCard, sc.maxFreqLength,
                  Quotient(sc.totalCards, sc.maxFreqLength) - sc.maxFreq)
  {
    var sc := ScanTo(h, MAX_CARD_TYPE_NUM);
    ScanMeaning(h, MAX_CARD_TYPE_NUM);
    ScanLowest(h, MAX_CARD_TYPE_NUM);
    LowestPresentIs(h, sc.minCard);
    if sc.maxFreq > 0 {
      FirstWithIs(h, sc.maxFreq, sc.maxFreqCard);
    }
  }

  /** Hand(card_counter): one scan over NINE..JOKER, then the decision. */
  method HandOf(cardCounter: Histogram) returns (hand: Hand)
    requires Encodable(cardCounter)
    ensures hand == Classify(cardCounter)
  {
    var combo := ToEncodedCards(cardCounter);
    var maxFreqCard := START_CARD;
    var maxFreq := 0;
    var maxFreqLength := 0;
    var minCard := BIG_JOKER;
    var totalCards := 0;
    var i := START_CARD;
    while i <= BIG_JOKER
      invariant START_CARD <= i <= MAX_CARD_TYPE_NUM
      invariant Scan(maxFreqCard, maxFreq, maxFreqLength, minCard, totalCards) == ScanTo(cardCounter, i)
    {
      ScanToNext(cardCounter, i);
      totalCards := totalCards + cardCounter[i];
      if cardCounter[i] > maxFreq {
        maxFreq := cardCounter[i];
        maxFreqCard := i;
        maxFreqLength := 1;
      } else if cardCounter[i] == maxFreq {
        maxFreqLength := maxFreqLength + 1;
      }
      if cardCounter[i] != 0 && i < minCard {
        minCard := i;
      }
      i := i + 1;
    }
    assert i == MAX_CARD_TYPE_NUM;
    ScanClassify(cardCounter);
    if maxFreq == 0 {
      return Hand(combo, PASS, START_CARD, 0, 0);
    }
    if minCard == SMALL_JOKER && totalCards == 2 {
      return Hand(combo, ROCKET, SMALL_JOKER, 2, 0);
    }
    hand := Hand(combo, maxFreq, maxFreqCard, maxFreqLength, Quotient(totalCards, maxFreqLength) - maxFreq);
  }

  // ---------------------------------------------------------------------------
  // The predicates of struct Hand
  // ---------------------------------------------------------------------------

  predicate IsPass(hand: Hand) { hand.kind == PASS }
  predicate IsSingle(hand: Hand) { hand.kind == SINGLE && hand.length == 1 }
  predicate IsPair(hand: Hand) { hand.kind == PAIR && hand.length == 1 }
  predicate IsBomb(hand: Hand) { hand.kind == QUADRUPLE && hand.length == 1 && hand.appendix == 0 }
  predicate IsRocket(hand: Hand) { hand.kind == ROCKET }
  predicate IsTripletOrQuadruple(hand: Hand) { (hand.kind == TRIPLET || hand.kind == QUADRUPLE) && hand.length == 1 }
  predicate HasAppendix(hand: Hand) { hand.appendix > 0 }

  /** isChain: a kind repeated on at least its minimum number of ranks (the ranks need not be
      consecutive for the predicate to hold). */
  predicate IsChain(hand: Hand)
  {
    (SINGLE <= hand.kind <= QUADRUPLE) && hand.length >= SeqMinLength(hand.kind)
  }

  /** isPass(combo): the combo analyses as PASS. */
  predicate IsPassCombo(combo: EncodedCards)
  {
    IsPass(Classify(Decode(combo)))
  }

  // ---------------------------------------------------------------------------
  // What the classification means
  // ---------------------------------------------------------------------------

  /** The hand is PASS exactly when it holds no card, and then it spans no rank. */
  lemma ClassifyPass(h: Histogram)
    requires Encodable(h)
    ensures IsPass(Classify(h)) <==> forall r :: START_CARD <= r < MAX_CARD_TYPE_NUM ==> h[r] == 0
    ensures IsPass(Classify(h)) ==> Classify(h).length == 0 && Classify(h).combo == NO_CARDS
  {
    MaxCountFacts(h, MAX_CARD_TYPE_NUM);
    if MaxCount(h, MAX_CARD_TYPE_NUM) == 0 {
      PackFromZeros(h, START_CARD, MAX_CARD_TYPE_NUM);
    }
  }

  /** isPass(combo) holds exactly for a combo with no card in it. */
  lemma PassComboIsEmpty(combo: EncodedCards)
    ensures IsPassCombo(combo) <==> IsEmptyHand(combo)
  {
    ClassifyPass(Decode(combo));
  }

  /** With the real deck's single copy of each joker, the hand is a rocket exactly when it is
      the two jokers and nothing else; a rocket starts at the small joker and spans two ranks. */
  lemma ClassifyRocket(h: Histogram)
    requires Encodable(h) && LegalCounts(h) && h[SMALL_JOKER] <= 1 && h[BIG_JOKER] <= 1
    ensures IsRocket(Classify(h)) <==>
            h[SMALL_JOKER] == 1 && h[BIG_JOKER] == 1 && forall r :: START_CARD <= r < SMALL_JOKER ==> h[r] == 0
    ensures IsRocket(Classify(h)) ==> Classify(h).start == SMALL_JOKER && Classify(h).length == 2
  {
    MaxCountFacts(h, MAX_CARD_TYPE_NUM);
    LowestPresentFacts(h, START_CARD);
    TotalSplit(h);
    TotalZero(h, SMALL_JOKER);
    if h[SMALL_JOKER] == 1 && h[BIG_JOKER] == 1 && forall r :: START_CARD <= r < SMALL_JOKER ==> h[r] == 0 {
      LowestPresentIs(h, SMALL_JOKER);
    }
  }

  /** The main branch of the classification, spelled out. */
  lemma ClassifyIsMain(h: Histogram)
    requires Encodable(h)
    requires !IsPass(Classify(h)) && !IsRocket(Classify(h))
    ensures var m := MaxCount(h, MAX_CARD_TYPE_NUM);
      && m != 0
      && Classify(h) == Hand(Packed(h), m, FirstWith(h, m, START_CARD), NumWith(h, m, MAX_CARD_TYPE_NUM),
                             Quotient(Total(h, MAX_CARD_TYPE_NUM), NumWith(h, m, MAX_CARD_TYPE_NUM)) - m)
  {
  }

  lemma MainFacts(h: Histogram, m: int, first: int, len: int)
    requires Encodable(h) && m == MaxCount(h, MAX_CARD_TYPE_NUM) && m != 0
    requires first == FirstWith(h, m, START_CARD) && len == NumWith(h, m, MAX_CARD_TYPE_NUM)
    ensures 1 <= m <= 15
    ensures forall r :: START_CARD <= r < MAX_CARD_TYPE_NUM ==> h[r] <= m
    ensures START_CARD <= first < MAX_CARD_TYPE_NUM && h[first] == m
    ensures forall r :: START_CARD <= r < first ==> h[r] < m
    ensures len >= 1
    ensures Quotient(Total(h, MAX_CARD_TYPE_NUM), len) >= m
    ensures IsFloorQuotient(Quotient(Total(h, MAX_CARD_TYPE_NUM), len), Total(h, MAX_CARD_TYPE_NUM), len)
  {
    MaxCountFacts(h, MAX_CARD_TYPE_NUM);
    FirstWithFacts(h, m, START_CARD);
    var total := Total(h, MAX_CARD_TYPE_NUM);
    var r :| START_CARD <= r < MAX_CARD_TYPE_NUM && h[r] == m;
    NumWithPositive(h, m, r, MAX_CARD_TYPE_NUM);
    NumWithTotal(h, m, MAX_CARD_TYPE_NUM);
    QuotientAtLeast(total, len, m);
  }

  /** Outside PASS and rocket, the main kind is the largest count, the start is the first rank
      holding it, and every rank before the start holds fewer. */
  lemma ClassifyMain(h: Histogram)
    requires Encodable(h)
    requires !IsPass(Classify(h)) && !IsRocket(Classify(h))
    ensures var hand := Classify(h);
      && 1 <= hand.kind <= 15
      && (forall r :: START_CARD <= r < MAX_CARD_TYPE_NUM ==> h[r] <= hand.kind)
      && START_CARD <= hand.start < MAX_CARD_TYPE_NUM && h[hand.start] == hand.kind
      && (forall r :: START_CARD <= r < hand.start ==> h[r] < hand.kind)
  {
    ClassifyIsMain(h);
    var m := MaxCount(h, MAX_CARD_TYPE_NUM);
    MainFacts(h, m, FirstWith(h, m, START_CARD), NumWith(h, m, MAX_CARD_TYPE_NUM));
  }

  /** Outside PASS and rocket, the length is how many ranks hold the main count, and main count
      plus appendix is the number of cards per main rank, rounded down: the appendix counts the
      kicker cards that come with each main rank. */
  lemma ClassifyAppendix(h: Histogram)
    requires Encodable(h)
    requires !IsPass(Classify(h)) && !IsRocket(Classify(h))
    ensures var hand := Classify(h);
      && hand.length == NumWith(h, hand.kind, MAX_CARD_TYPE_NUM) >= 1
      && hand.appendix >= 0
      && IsFloorQuotient(hand.kind + hand.appendix, Total(h, MAX_CARD_TYPE_NUM), hand.length)
  {
    ClassifyIsMain(h);
    var m := MaxCount(h, MAX_CARD_TYPE_NUM);
    var len := NumWith(h, m, MAX_CARD_TYPE_NUM);
    MainFacts(h, m, FirstWith(h, m, START_CARD), len);
    var hand := Classify(h);
    assert hand.kind + hand.appendix == Quotient(Total(h, MAX_CARD_TYPE_NUM), len);
  }

  /** A hand is a bomb exactly when it is four cards of one rank and nothing else. */
  lemma ClassifyBomb(h: Histogram)
    requires Encodable(h)
    ensures IsBomb(Classify(h)) <==>
            exists q :: START_CARD <= q < MAX_CARD_TYPE_NUM && h[q] == 4 &&
              forall r :: START_CARD <= r < MAX_CARD_TYPE_NUM && r != q ==> h[r] == 0
  {
    if IsBomb(Classify(h)) {
      BombIsOneQuadruple(h);
    }
    if q :| START_CARD <= q < MAX_CARD_TYPE_NUM && h[q] == 4 &&
           (forall r :: START_CARD <= r < MAX_CARD_TYPE_NUM && r != q ==> h[r] == 0) {
      ClassifySmall(h, q, 4);
    }
  }

  lemma BombIsOneQuadruple(h: Histogram)
    requires Encodable(h) && IsBomb(Classify(h))
    ensures var q := Classify(h).start;
      START_CARD <= q < MAX_CARD_TYPE_NUM && h[q] == 4 &&
      forall r :: START_CARD <= r < MAX_CARD_TYPE_NUM && r != q ==> h[r] == 0
  {
    var hand := Classify(h);
    ClassifyMain(h);
    ClassifyAppendix(h);
    var q := hand.start;
    var total := Total(h, MAX_CARD_TYPE_NUM);
    assert IsFloorQuotient(4, total, 1);
    assert total == 4;
    forall r | START_CARD <= r < MAX_CARD_TYPE_NUM && r != q
      ensures h[r] == 0
    {
      TotalTwo(h, q, r, MAX_CARD_TYPE_NUM);
    }
  }

  /** With a single rank present, the total and the count of ranks with that many cards. */
  lemma {:induction false} OnlyRank(h: Histogram, q: int, hi: int)
    requires Encodable(h) && START_CARD <= q < MAX_CARD_TYPE_NUM && h[q] > 0 && START_CARD <= hi <= MAX_CARD_TYPE_NUM
    requires forall r :: START_CARD <= r < MAX_CARD_TYPE_NUM && r != q ==> h[r] == 0
    ensures Total(h, hi) == (if q < hi then h[q] else 0)
    ensures NumWith(h, h[q], hi) == (if q < hi then 1 else 0)
    ensures MaxCount(h, hi) == (if q < hi then h[q] else 0)
    decreases hi
  {
    if hi > START_CARD {
      OnlyRank(h, q, hi - 1);
    }
  }

  /** n copies of a single rank (one to four, and not the two-small-jokers case that reads as a
      rocket) form a main part of n cards, one rank long, with nothing appended: a single, a
      pair, a bare triplet or a bomb. */
  lemma ClassifySmall(h: Histogram, q: int, n: int)
    requires Encodable(h) && START_CARD <= q < MAX_CARD_TYPE_NUM && 1 <= n <= 4
    requires q == SMALL_JOKER ==> n != 2
    requires h[q] == n && forall r :: START_CARD <= r < MAX_CARD_TYPE_NUM && r != q ==> h[r] == 0
    ensures Classify(h) == Hand(Packed(h), n, q, 1, 0)
  {
    OnlyRank(h, q, MAX_CARD_TYPE_NUM);
    FirstWithIs(h, n, q);
    LowestPresentFacts(h, START_CARD);
    QuotientOne(n);
    if q <= BIG_JOKER - 1 {
      LowestPresentIs(h, q);
    }
  }

  /** What the constructor guarantees of every hand: a kind that fits a field, a start rank
      among NINE..JOKER, no negative appendix, and a length of at least one outside PASS. */
  predicate HandShape(hand: Hand)
  {
    && 0 <= hand.kind <= 15
    && START_CARD <= hand.start < MAX_CARD_TYPE_NUM
    && hand.appendix >= 0
    && (hand.kind != PASS ==> hand.length >= 1)
  }

  lemma ClassifyShape(h: Histogram)
    requires Encodable(h)
    ensures HandShape(Classify(h))
  {
    var m := MaxCount(h, MAX_CARD_TYPE_NUM);
    if m != 0 {
      MainFacts(h, m, FirstWith(h, m, START_CARD), NumWith(h, m, MAX_CARD_TYPE_NUM));
    }
  }
}

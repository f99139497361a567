/** The game state the move generator works on (struct DoudizhuState): my cards, their
    histogram and the hand I must answer; with the rocket and bomb generators and the decoding
    of a packed move back into card ids. */
module State {
  import opened Encoding
  import opened Hands

  /** `my_cards` (card ids, empty when built from packed words), `my_card_counter` and
      `last_action`. */
  datatype DoudizhuState = DoudizhuState(myCards: seq<int>, myCardCounter: Histogram, lastAction: Hand)

  /** The histogram of a list of card ids. */
  function CountVector(cards: seq<int>): (h: Histogram)
    requires forall i :: 0 <= i < |cards| ==> IsCard(cards[i])
    ensures |h| == MAX_CARD_TYPE_NUM
  {
    seq(MAX_CARD_TYPE_NUM, r => CountRank(cards, |cards|, r))
  }

  /** DoudizhuState(mine, last) on card ids. The hand to answer is analysed from its
      histogram, which must fit the packed form. */
  method FromCards(mine: seq<int>, last: seq<int>) returns (s: DoudizhuState)
    requires forall i :: 0 <= i < |mine| ==> IsCard(mine[i])
    requires forall i :: 0 <= i < |last| ==> IsCard(last[i])
    requires forall r :: START_CARD <= r < MAX_CARD_TYPE_NUM ==> CountRank(last, |last|, r) <= 15
    ensures s.myCards == mine
    ensures s.myCardCounter == CountVector(mine)
    ensures Encodable(CountVector(last)) && s.lastAction == Classify(CountVector(last))
  {
    var counter := ToCardCountVector(mine);
    var lastCounter := ToCardCountVector(last);
    assert lastCounter == CountVector(last);
    var lastAction := HandOf(lastCounter);
    s := DoudizhuState(mine, counter, lastAction);
  }

  /** DoudizhuState(mine, last) on packed words: no card ids are kept. */
  method FromEncoded(mine: EncodedCards, last: EncodedCards) returns (s: DoudizhuState)
    ensures s.myCards == []
    ensures s.myCardCounter == Decode(mine)
    ensures Encodable(Decode(last)) && s.lastAction == Classify(Decode(last))
  {
    var counter := EncodedCardsToCardCountVector(mine);
    var lastCounter := EncodedCardsToCardCountVector(last);
    assert counter == Decode(mine);
    assert lastCounter == Decode(last);
    var lastAction := HandOf(lastCounter);
    s := DoudizhuState([], counter, lastAction);
  }

  // ---------------------------------------------------------------------------
  // n copies of one rank
  // ---------------------------------------------------------------------------

  /** `addToEncodedCards(r, NO_CARDS, n)`: the move made of n copies of rank r. */
  function Copies(r: nat, n: nat): EncodedCards
  {
    AddToEncodedCards(r, NO_CARDS, n)
  }

  lemma CopiesValue(r: nat, n: nat)
    requires r < MAX_CARD_TYPE_NUM && n <= 15
    ensures Copies(r, n) == Shl4(n, r)
  {
    ShlBelowNext(n, r);
    ShlFieldMono(r + 1, 16);
    Powers();
  }

  /** n <= 15 copies of rank r sit in field r alone. */
  lemma CopiesFacts(r: nat, n: nat)
    requires r < MAX_CARD_TYPE_NUM && n <= 15
    ensures Copies(r, n) == Shl4(n, r)
    ensures forall s: nat :: NumCardOfEncoded(s, Copies(r, n)) == if s == r then n else 0
  {
    ShrZero(r);
    AddToEncodedCardsFields(r, NO_CARDS, n);
    forall s: nat
      ensures NumCardOfEncoded(s, NO_CARDS) == 0
    {
      ShrZero(s);
    }
  }

  lemma ShlBelowNext(n: int, r: nat)
    requires 0 <= n <= 15
    ensures 0 <= Shl4(n, r) < Shl4(1, r + 1)
  {
    ShlMono(0, n, r);
    ShlZero(r);
    ShlMono(n, 15, r);
    ShlAdd(15, 1, r);
    ShlScale(1, r);
    ShlPositive(r);
  }

  lemma {:induction false} ShlFieldMono(r: nat, q: nat)
    requires r <= q
    ensures Shl4(1, r) <= Shl4(1, q)
    decreases q - r
  {
    if r < q {
      ShlFieldMono(r, q - 1);
      ShlPositive(q - 1);
    }
  }

  /** Moves of one rank are ordered by rank first and by count second. */
  lemma CopiesOrder(r: nat, n: nat, q: nat, m: nat)
    requires r < MAX_CARD_TYPE_NUM && q < MAX_CARD_TYPE_NUM
    requires 1 <= n <= 15 && 1 <= m <= 15
    ensures Copies(r, n) < Copies(q, m) <==> r < q || (r == q && n < m)
  {
    CopiesValue(r, n);
    CopiesValue(q, m);
    if r < q {
      CopiesBelow(r, n, q, m);
    } else if q < r {
      CopiesBelow(q, m, r, n);
    } else {
      ShlMul(n, r);
      ShlMul(m, r);
      ShlPositive(r);
      ScaleOrder(n, m, Shl4(1, r));
    }
  }

  lemma ScaleOrder(n: int, m: int, a: int)
    requires a >= 1
    ensures n * a < m * a <==> n < m
  {
    if n < m {
      assert m * a - n * a == (m - n) * a;
    } else {
      assert n * a - m * a == (n - m) * a;
    }
  }

  lemma CopiesBelow(r: nat, n: nat, q: nat, m: nat)
    requires r < q && 0 <= n <= 15 && 1 <= m
    ensures Shl4(n, r) < Shl4(m, q)
  {
    ShlBelowNext(n, r);
    ShlFieldMono(r + 1, q);
    ShlMono(1, m, q);
  }

  // ---------------------------------------------------------------------------
  // genRocket and genBombs
  // ---------------------------------------------------------------------------

  /** One small and one big joker, and nothing else. */
  const ROCKET_CARDS: EncodedCards := 0x0110_0000_0000_0000

  /** genRocket: the rocket when I hold both jokers, NO_CARDS otherwise. */
  function GenRocket(s: DoudizhuState): EncodedCards
    requires |s.myCardCounter| == MAX_CARD_TYPE_NUM
  {
    if s.myCardCounter[SMALL_JOKER] == 1 && s.myCardCounter[BIG_JOKER] == 1 then
      AddToEncodedCards(BIG_JOKER, AddToEncodedCards(SMALL_JOKER, NO_CARDS, 1), 1)
    else NO_CARDS
  }

  /** The rocket is offered exactly when I hold one of each joker; it is the two jokers and
      nothing else, and it analyses as a rocket. */
  lemma RocketMove(s: DoudizhuState)
    requires |s.myCardCounter| == MAX_CARD_TYPE_NUM
    ensures GenRocket(s) != NO_CARDS <==> s.myCardCounter[SMALL_JOKER] == 1 && s.myCardCounter[BIG_JOKER] == 1
    ensures GenRocket(s) != NO_CARDS ==> GenRocket(s) == ROCKET_CARDS
    ensures GenRocket(s) != NO_CARDS ==>
              forall r: nat :: NumCardOfEncoded(r, GenRocket(s)) == if r == SMALL_JOKER || r == BIG_JOKER then 1 else 0
    ensures GenRocket(s) != NO_CARDS ==> IsRocket(Classify(Decode(GenRocket(s))))
  {
    var one := AddToEncodedCards(SMALL_JOKER, NO_CARDS, 1);
    CopiesFacts(SMALL_JOKER, 1);
    PowerTable();
    AddToEncodedCardsFields(BIG_JOKER, one, 1);
    var e := AddToEncodedCards(BIG_JOKER, one, 1);
    if s.myCardCounter[SMALL_JOKER] == 1 && s.myCardCounter[BIG_JOKER] == 1 {
      var h := Decode(e);
      assert forall r :: START_CARD <= r < MAX_CARD_TYPE_NUM ==> h[r] == NumCardOfEncoded(r, e);
      ClassifyRocket(h);
    }
  }

  /** The bombs among ranks START_CARD .. hi-1, in rank order. */
  function BombsUpTo(h: Histogram, hi: int): seq<EncodedCards>
    requires |h| == MAX_CARD_TYPE_NUM && START_CARD <= hi <= MAX_CARD_TYPE_NUM
    decreases hi
  {
    if hi == START_CARD then []
    else BombsUpTo(h, hi - 1) + (if h[hi - 1] == 4 then [Copies(hi - 1, 4)] else [])
  }

  /** genBombs: four copies of every rank NINE..TWO that I hold four of. */
  method GenBombs(s: DoudizhuState) returns (actions: seq<EncodedCards>)
    requires |s.myCardCounter| == MAX_CARD_TYPE_NUM
    ensures actions == BombsUpTo(s.myCardCounter, TWO + 1)
  {
    actions := [];
    var i := START_CARD;
    while i <= TWO
      invariant START_CARD <= i <= TWO + 1
      invariant actions == BombsUpTo(s.myCardCounter, i)
    {
      if s.myCardCounter[i] == 4 {
        var action := AddToEncodedCards(i, NO_CARDS, 4);
        actions := actions + [action];
      }
      i := i + 1;
    }
  }

  /** The bombs below hi are exactly four copies of each rank below hi held four times. */
  lemma {:induction false} BombsMembers(h: Histogram, hi: int)
    requires |h| == MAX_CARD_TYPE_NUM && START_CARD <= hi <= TWO + 1
    ensures forall x :: x in BombsUpTo(h, hi) <==>
              exists r :: START_CARD <= r < hi && h[r] == 4 && x == Copies(r, 4)
    decreases hi
  {
    if hi > START_CARD {
      BombsMembers(h, hi - 1);
    }
  }

  /** The bombs are listed in increasing order. */
  lemma {:induction false} BombsAscending(h: Histogram, hi: int)
    requires |h| == MAX_CARD_TYPE_NUM && START_CARD <= hi <= TWO + 1
    ensures forall i, j :: 0 <= i < j < |BombsUpTo(h, hi)| ==> BombsUpTo(h, hi)[i] < BombsUpTo(h, hi)[j]
    decreases hi
  {
    if hi > START_CARD {
      BombsAscending(h, hi - 1);
      BombsMembers(h, hi - 1);
      var b := BombsUpTo(h, hi - 1);
      forall i | 0 <= i < |b|
        ensures b[i] < Copies(hi - 1, 4)
      {
        assert b[i] in b;
        var r :| START_CARD <= r < hi - 1 && h[r] == 4 && b[i] == Copies(r, 4);
        CopiesOrder(r, 4, hi - 1, 4);
      }
    }
  }

  // ---------------------------------------------------------------------------
  // decodeAction
  // ---------------------------------------------------------------------------

  /** The decoding after a prefix of my cards: the cards chosen, their positions, and what is
      left of the packed move. */
  datatype Decoded = Decoded(action: seq<int>, kept: seq<int>, left: EncodedCards)

  function DecodePrefix(cards: seq<int>, encoded: EncodedCards, m: nat): Decoded
    requires m <= |cards| && forall i :: 0 <= i < |cards| ==> IsCard(cards[i])
  {
    if m == 0 then Decoded([], [], encoded)
    else DecodeStep(cards, m - 1, DecodePrefix(cards, encoded, m - 1))
  }

  /** One card of decodeAction: take card i when the move still needs its rank. */
  function DecodeStep(cards: seq<int>, i: nat, d: Decoded): Decoded
    requires i < |cards| && IsCard(cards[i])
  {
    var ct := CardTypeOf(cards[i]);
    if NumCardOfEncoded(ct, d.left) > 0 then
      Decoded(d.action + [cards[i]], d.kept + [i], MinusFromEncodedCards(ct, d.left, 1))
    else d
  }

  /** decodeAction: walk my cards in order and take each card whose rank the move still needs. */
  method DecodeAction(s: DoudizhuState, encodedAction: EncodedCards) returns (action: seq<int>)
    requires forall i :: 0 <= i < |s.myCards| ==> IsCard(s.myCards[i])
    ensures action == DecodePrefix(s.myCards, encodedAction, |s.myCards|).action
  {
    action := [];
    var encoded := encodedAction;
    var n := 0;
    while n < |s.myCards|
      invariant 0 <= n <= |s.myCards|
      invariant Decoded(action, DecodePrefix(s.myCards, encodedAction, n).kept, encoded) ==
                DecodePrefix(s.myCards, encodedAction, n)
    {
      var c := s.myCards[n];
      var ct := CardTypeOf(c);
      var encodedCtNum := NumCardOfEncoded(ct, encoded);
      if encodedCtNum > 0 {
        encoded := MinusFromEncodedCards(ct, encoded, 1);
        action := action + [c];
      }
      n := n + 1;
    }
  }

  /** xs is ys at the strictly increasing positions idx. */
  predicate Embeds(xs: seq<int>, ys: seq<int>, idx: seq<int>)
  {
    && |idx| == |xs|
    && (forall i :: 0 <= i < |idx| ==> 0 <= idx[i] < |ys| && xs[i] == ys[idx[i]])
    && (forall i, j :: 0 <= i < j < |idx| ==> idx[i] < idx[j])
  }

  function Min(a: int, b: int): int
  {
    if a <= b then a else b
  }

  /** After m cards the chosen cards are my cards at increasing positions below m. */
  lemma {:induction false} DecodeKept(cards: seq<int>, encoded: EncodedCards, m: nat)
    requires m <= |cards| && forall i :: 0 <= i < |cards| ==> IsCard(cards[i])
    ensures var d := DecodePrefix(cards, encoded, m);
      && (forall i :: 0 <= i < |d.kept| ==> d.kept[i] < m)
      && Embeds(d.action, cards, d.kept)
  {
    if m > 0 {
      DecodeKept(cards, encoded, m - 1);
    }
  }

  /** After m cards each rank r has been taken min(held so far, demanded) times, and the
      move's field r has dropped by as much. */
  ghost predicate CountsAfter(cards: seq<int>, encoded: EncodedCards, m: nat, d: Decoded)
    requires m <= |cards| && forall i :: 0 <= i < |cards| ==> IsCard(cards[i])
  {
    && (forall i :: 0 <= i < |d.action| ==> IsCard(d.action[i]))
    && forall r: nat :: r < MAX_CARD_TYPE_NUM ==>
         && CountRank(d.action, |d.action|, r) == Min(CountRank(cards, m, r), NumCardOfEncoded(r, encoded))
         && NumCardOfEncoded(r, d.left) == NumCardOfEncoded(r, encoded) - CountRank(d.action, |d.action|, r)
  }

  lemma {:induction false} DecodeCounts(cards: seq<int>, encoded: EncodedCards, m: nat)
    requires m <= |cards| && forall i :: 0 <= i < |cards| ==> IsCard(cards[i])
    ensures CountsAfter(cards, encoded, m, DecodePrefix(cards, encoded, m))
  {
    if m > 0 {
      DecodeCounts(cards, encoded, m - 1);
      DecodeCountsStep(cards, encoded, m, DecodePrefix(cards, encoded, m - 1));
    }
  }

  lemma DecodeCountsStep(cards: seq<int>, encoded: EncodedCards, m: nat, d: Decoded)
    requires 0 < m <= |cards| && forall i :: 0 <= i < |cards| ==> IsCard(cards[i])
    requires CountsAfter(cards, encoded, m - 1, d)
    ensures CountsAfter(cards, encoded, m, DecodeStep(cards, m - 1, d))
  {
    var ct := CardTypeOf(cards[m - 1]);
    if NumCardOfEncoded(ct, d.left) > 0 {
      MinusFromEncodedCardsFields(ct, d.left, 1);
      CountAppend(d.action, cards[m - 1]);
    }
  }

  /** Appending a card counts it once, at its own rank. */
  lemma CountAppend(xs: seq<int>, x: int)
    requires IsCard(x) && forall i :: 0 <= i < |xs| ==> IsCard(xs[i])
    ensures forall i :: 0 <= i < |xs + [x]| ==> IsCard((xs + [x])[i])
    ensures forall r: nat :: CountRank(xs + [x], |xs| + 1, r) ==
              CountRank(xs, |xs|, r) + (if r == CardTypeOf(x) then 1 else 0)
  {
    var a := xs + [x];
    assert a[..|xs|] == xs;
    forall r: nat
      ensures CountRank(a, |xs| + 1, r) == CountRank(xs, |xs|, r) + (if r == CardTypeOf(x) then 1 else 0)
    {
      CountRankPrefix(a, |xs|, r);
    }
  }

  /** Counting over a prefix of a list is counting over the list cut there. */
  lemma {:induction false} CountRankPrefix(cards: seq<int>, n: nat, r: int)
    requires n <= |cards| && forall i :: 0 <= i < |cards| ==> IsCard(cards[i])
    ensures CountRank(cards[..n], n, r) == CountRank(cards, n, r)
    decreases n
  {
    if n > 0 {
      CountRankPrefix(cards, n - 1, r);
      assert cards[..n][..n - 1] == cards[..n - 1];
      CountRankPrefix(cards[..n], n - 1, r);
    }
  }

  /** decodeAction picks a subsequence of my cards holding, rank by rank, as many cards as the
      move demands when I hold that many, and all I hold otherwise; so a move that fits in my
      hand decodes to cards whose histogram is the move. */
  lemma DecodeActionMeaning(cards: seq<int>, encoded: EncodedCards)
    requires forall i :: 0 <= i < |cards| ==> IsCard(cards[i])
    ensures var d := DecodePrefix(cards, encoded, |cards|);
      Embeds(d.action, cards, d.kept)
    ensures var a := DecodePrefix(cards, encoded, |cards|).action;
      && (forall i :: 0 <= i < |a| ==> IsCard(a[i]))
      && forall r :: 0 <= r < MAX_CARD_TYPE_NUM ==>
           CountRank(a, |a|, r) == Min(CountRank(cards, |cards|, r), NumCardOfEncoded(r, encoded))
    ensures var a := DecodePrefix(cards, encoded, |cards|).action;
      (forall r :: 0 <= r < MAX_CARD_TYPE_NUM ==> NumCardOfEncoded(r, encoded) <= CountRank(cards, |cards|, r)) ==>
        (forall i :: 0 <= i < |a| ==> IsCard(a[i])) &&
        forall r :: 0 <= r < MAX_CARD_TYPE_NUM ==> CountRank(a, |a|, r) == NumCardOfEncoded(r, encoded)
  {
    DecodeKept(cards, encoded, |cards|);
    DecodeCounts(cards, encoded, |cards|);
  }
}

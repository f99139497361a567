/** The heuristic score of a hand (evaluate_each_player) and of a whole table
    (evaluate_global_situation). Every term of the score is an integer, so it is an int here;
    the table score halves some scores and is a real. */
module Evaluate {
  import opened Encoding

  // ---------------------------------------------------------------------------
  // The score, stated rank by rank
  // ---------------------------------------------------------------------------

  /** What the jokers are worth: 130 for both, 40 for the small one, 48 for the big one. */
  function JokerValue(c: Histogram): int
    requires |c| == MAX_CARD_TYPE_NUM
  {
    if c[SMALL_JOKER] == 1 && c[BIG_JOKER] == 1 then 130
    else if c[SMALL_JOKER] == 1 then 40
    else if c[BIG_JOKER] == 1 then 48
    else 0
  }

  /** The jokers count as one hand to play, whichever of them are held. */
  function JokerHands(c: Histogram): int
    requires |c| == MAX_CARD_TYPE_NUM
  {
    if c[SMALL_JOKER] == 1 || c[BIG_JOKER] == 1 then 1 else 0
  }

  /** A triplet of rank r is worth 6r, a bomb 7r + 30. */
  function GroupValue(c: Histogram, r: int): int
    requires |c| == MAX_CARD_TYPE_NUM && 0 <= r < MAX_CARD_TYPE_NUM
  {
    if c[r] == 3 then 6 * r else if c[r] == 4 then 7 * r + 30 else 0
  }

  /** Total worth of the triplets and bombs at ranks NINE .. hi-1. */
  function GroupsUpTo(c: Histogram, hi: int): int
    requires |c| == MAX_CARD_TYPE_NUM && hi <= MAX_CARD_TYPE_NUM
    decreases hi
  {
    if hi <= START_CARD then 0 else GroupsUpTo(c, hi - 1) + GroupValue(c, hi - 1)
  }

  /** Number of ranks NINE .. hi-1 holding a triplet or a bomb. */
  function GroupCount(c: Histogram, hi: int): int
    requires |c| == MAX_CARD_TYPE_NUM && hi <= MAX_CARD_TYPE_NUM
    decreases hi
  {
    if hi <= START_CARD then 0 else GroupCount(c, hi - 1) + (if c[hi - 1] == 3 || c[hi - 1] == 4 then 1 else 0)
  }

  /** Number of ranks NINE .. hi-1 holding exactly a triplet. */
  function TripletCount(c: Histogram, hi: int): (n: int)
    requires |c| == MAX_CARD_TYPE_NUM && hi <= MAX_CARD_TYPE_NUM
    ensures 0 <= n
    decreases hi
  {
    if hi <= START_CARD then 0 else TripletCount(c, hi - 1) + (if c[hi - 1] == 3 then 1 else 0)
  }

  /** The ranks NINE .. hi-1 holding one or two cards, in increasing order. */
  function LooseRanks(c: Histogram, hi: int): (rs: seq<int>)
    requires |c| == MAX_CARD_TYPE_NUM && hi <= MAX_CARD_TYPE_NUM
    ensures forall i :: 0 <= i < |rs| ==> START_CARD <= rs[i] < hi && (c[rs[i]] == 1 || c[rs[i]] == 2)
    ensures forall i, j :: 0 <= i < j < |rs| ==> rs[i] < rs[j]
    decreases hi
  {
    if hi <= START_CARD then []
    else LooseRanks(c, hi - 1) + (if c[hi - 1] == 1 || c[hi - 1] == 2 then [hi - 1] else [])
  }

  /** A single of rank r is worth 2r, a pair 3r; summed over ranks. */
  function LooseValue(c: Histogram, rs: seq<int>): int
    requires |c| == MAX_CARD_TYPE_NUM && forall i :: 0 <= i < |rs| ==> 0 <= rs[i] < MAX_CARD_TYPE_NUM
  {
    if rs == [] then 0
    else
      var r := rs[|rs| - 1];
      LooseValue(c, rs[..|rs| - 1]) + (if c[r] == 1 then 2 * r else 3 * r)
  }

  /** Each triplet takes the lowest single or pair not yet taken as its kicker; what is left
      over is worth its own value and is a hand of its own. Every hand costs 10. */
  function Score(c: Histogram): int
    requires |c| == MAX_CARD_TYPE_NUM
  {
    var left := Leftover(c, TripletCount(c, TWO + 1), TWO + 1);
    JokerValue(c) + GroupsUpTo(c, TWO + 1) + LooseValue(c, left)
      - 10 * (JokerHands(c) + GroupCount(c, TWO + 1) + |left|)
  }

  /** How many of the singles and pairs at NINE .. hi-1 the t triplets absorb. */
  function Absorbed(c: Histogram, t: int, hi: int): int
    requires |c| == MAX_CARD_TYPE_NUM && hi <= MAX_CARD_TYPE_NUM
  {
    if t <= 0 then 0 else Min(t, |LooseRanks(c, hi)|)
  }

  /** The singles and pairs at NINE .. hi-1 that t triplets leave over: all but the lowest t. */
  function Leftover(c: Histogram, t: int, hi: int): seq<int>
    requires |c| == MAX_CARD_TYPE_NUM && hi <= MAX_CARD_TYPE_NUM
  {
    LooseRanks(c, hi)[Absorbed(c, t, hi)..]
  }

  function Min(a: int, b: int): int
  {
    if a <= b then a else b
  }

  // ---------------------------------------------------------------------------
  // evaluate_each_player
  // ---------------------------------------------------------------------------

  /** evaluate_each_player: the jokers, then triplets and bombs from NINE to TWO, then the
      singles and pairs from NINE to TWO, each of which a remaining triplet absorbs. */
  method EvaluateEachPlayer(card: Histogram) returns (value: int)
    requires |card| == MAX_CARD_TYPE_NUM
    ensures value == Score(card)
  {
    value := 0;
    var tripletNum := 0;
    var handNum := 0;
    if card[SMALL_JOKER] == 1 && card[BIG_JOKER] == 1 {
      value := value + 130;
      handNum := handNum + 1;
    } else if card[SMALL_JOKER] == 1 {
      value := value + 40;
      handNum := handNum + 1;
    } else if card[BIG_JOKER] == 1 {
      value := value + 48;
      handNum := handNum + 1;
    }
    for i := START_CARD to TWO + 1
      invariant value == JokerValue(card) + GroupsUpTo(card, i)
      invariant tripletNum == TripletCount(card, i)
      invariant handNum == JokerHands(card) + GroupCount(card, i)
    {
      if card[i] == 3 {
        tripletNum := tripletNum + 1;
        value := value + i * 6;
        handNum := handNum + 1;
      }
      if card[i] == 4 {
        value := value + i * 7 + 30;
        handNum := handNum + 1;
      }
    }
    ghost var base := value;
    ghost var baseHands := handNum;
    ghost var triplets := tripletNum;
    for i := START_CARD to TWO + 1
      invariant 0 <= Absorbed(card, triplets, i) <= triplets
      invariant tripletNum == triplets - Absorbed(card, triplets, i)
      invariant value == base + LooseValue(card, Leftover(card, triplets, i))
      invariant handNum == baseHands + |Leftover(card, triplets, i)|
    {
      LooseStep(card, i, triplets);
      if card[i] == 1 {
        if tripletNum != 0 {
          tripletNum := tripletNum - 1;
        } else {
          value := value + i * 2;
          handNum := handNum + 1;
        }
      }
      if card[i] == 2 {
        if tripletNum != 0 {
          tripletNum := tripletNum - 1;
        } else {
          value := value + i * 3;
          handNum := handNum + 1;
        }
      }
    }
    value := value - handNum * 10;
  }

  /** How the absorbed and the leftover singles and pairs change when rank i is scanned. */
  lemma LooseStep(c: Histogram, i: int, t: int)
    requires |c| == MAX_CARD_TYPE_NUM && START_CARD <= i < MAX_CARD_TYPE_NUM && 0 <= t
    requires Absorbed(c, t, i) <= t
    ensures c[i] != 1 && c[i] != 2 ==> Absorbed(c, t, i + 1) == Absorbed(c, t, i) && Leftover(c, t, i + 1) == Leftover(c, t, i)
    ensures (c[i] == 1 || c[i] == 2) && Absorbed(c, t, i) < t ==>
              Absorbed(c, t, i + 1) == Absorbed(c, t, i) + 1 && Leftover(c, t, i + 1) == Leftover(c, t, i) == []
    ensures (c[i] == 1 || c[i] == 2) && Absorbed(c, t, i) == t ==>
              Absorbed(c, t, i + 1) == t && Leftover(c, t, i + 1) == Leftover(c, t, i) + [i] &&
              LooseValue(c, Leftover(c, t, i + 1)) == LooseValue(c, Leftover(c, t, i)) + (if c[i] == 1 then 2 * i else 3 * i)
  {
    var before := LooseRanks(c, i);
    var after := LooseRanks(c, i + 1);
    if c[i] == 1 || c[i] == 2 {
      assert after == before + [i];
      if Absorbed(c, t, i) == t {
        assert after[t..] == before[t..] + [i];
        var l := Leftover(c, t, i + 1);
        assert l[..|l| - 1] == Leftover(c, t, i);
      }
    }
  }

  // ---------------------------------------------------------------------------
  // evaluate_global_situation
  // ---------------------------------------------------------------------------

  /** As the landlord (pos 0): my score less half of each peasant's. As a peasant: half of my
      score and my partner's, less the landlord's. */
  function GlobalSituation(my: Histogram, p1: Histogram, p2: Histogram, pos: int): real
    requires |my| == |p1| == |p2| == MAX_CARD_TYPE_NUM
  {
    TableScore(Score(my), Score(p1), Score(p2), pos)
  }

  /** The table score from the three hand scores. */
  function TableScore(mine: int, first: int, second: int, pos: int): real
  {
    if pos == 0 then mine as real - 0.5 * (first as real + second as real)
    else 0.5 * (mine as real + first as real) - second as real
  }

  method EvaluateGlobalSituation(my: Histogram, p1: Histogram, p2: Histogram, pos: int) returns (g: real)
    requires |my| == |p1| == |p2| == MAX_CARD_TYPE_NUM
    ensures g == GlobalSituation(my, p1, p2, pos)
  {
    var mine := EvaluateEachPlayer(my);
    var first := EvaluateEachPlayer(p1);
    var second := EvaluateEachPlayer(p2);
    if pos == 0 {
      g := mine as real - 0.5 * (first as real + second as real);
    } else {
      g := 0.5 * (mine as real + first as real) - second as real;
    }
    assert g == TableScore(mine, first, second, pos);
  }

  // ---------------------------------------------------------------------------
  // What the score says about particular hands
  // ---------------------------------------------------------------------------

  /** With no card held at NINE .. hi-1 there is neither a group nor a single or pair there. */
  lemma {:induction false} NothingUpTo(c: Histogram, hi: int)
    requires |c| == MAX_CARD_TYPE_NUM && hi <= MAX_CARD_TYPE_NUM
    requires forall r :: START_CARD <= r < hi ==> c[r] == 0
    ensures GroupsUpTo(c, hi) == 0 && GroupCount(c, hi) == 0 && TripletCount(c, hi) == 0
    ensures LooseRanks(c, hi) == []
    decreases hi
  {
    if hi > START_CARD {
      NothingUpTo(c, hi - 1);
    }
  }

  /** The empty hand scores 0. */
  lemma EmptyHandScore(c: Histogram)
    requires |c| == MAX_CARD_TYPE_NUM && forall r :: 0 <= r < MAX_CARD_TYPE_NUM ==> c[r] == 0
    ensures Score(c) == 0
  {
    NothingUpTo(c, TWO + 1);
  }

  /** A hand of just the two jokers scores 130 for the rocket less 10 for playing it. */
  lemma RocketOnlyScore(c: Histogram)
    requires |c| == MAX_CARD_TYPE_NUM && c[SMALL_JOKER] == 1 && c[BIG_JOKER] == 1
    requires forall r :: 0 <= r <= TWO ==> c[r] == 0
    ensures Score(c) == 130 - 10
  {
    NothingUpTo(c, TWO + 1);
  }

  /** Without triplets, every single and pair keeps its own value and costs a hand. */
  lemma NoTripletsKeepsLoose(c: Histogram)
    requires |c| == MAX_CARD_TYPE_NUM && TripletCount(c, TWO + 1) == 0
    ensures Score(c) == JokerValue(c) + GroupsUpTo(c, TWO + 1) + LooseValue(c, LooseRanks(c, TWO + 1))
        - 10 * (JokerHands(c) + GroupCount(c, TWO + 1) + |LooseRanks(c, TWO + 1)|)
  {
    assert Leftover(c, 0, TWO + 1) == LooseRanks(c, TWO + 1)[0..];
  }

  /** The peasants' table score is the landlord's negated, seen from the landlord's seat. */
  lemma PeasantViewNegatesLandlord(my: Histogram, p1: Histogram, p2: Histogram, pos: int)
    requires |my| == |p1| == |p2| == MAX_CARD_TYPE_NUM && pos != 0
    ensures GlobalSituation(my, p1, p2, pos) == -GlobalSituation(p2, my, p1, 0)
  {
  }
}

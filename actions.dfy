/** validActions: every move I may make next, as packed words. It puts together the free
    lead after a pass, the answers to a hand that must be beaten, the bombs and the rocket. */
module Actions {
  import opened Encoding
  import opened Hands
  import opened State
  import opened Respond
  import opened Lead

  /** `generate_appendix && (last_action.hasAppendix() || last_action.isPass())`: kickers are
      only added when asked for and when the hand to answer carries kickers or is a pass. */
  predicate WantKickers(s: DoudizhuState, gen: bool)
  {
    gen && (HasAppendix(s.lastAction) || IsPass(s.lastAction))
  }

  /** The rocket, when I hold it. */
  function RocketTail(s: DoudizhuState): seq<EncodedCards>
    requires |s.myCardCounter| == MAX_CARD_TYPE_NUM
  {
    if GenRocket(s) != NO_CARDS then [GenRocket(s)] else []
  }

  /** The bombs I hold, in rank order, then the rocket: what closes every list but the answer
      to a rocket. */
  function BombsAndRocket(s: DoudizhuState): seq<EncodedCards>
    requires |s.myCardCounter| == MAX_CARD_TYPE_NUM
  {
    BombsUpTo(s.myCardCounter, TWO + 1) + RocketTail(s)
  }

  /** The answers of the branch for a single or pair, a triplet or quadruple, or a chain; no
      answer of that kind to any other hand. */
  function Answers(s: DoudizhuState, g: bool): seq<EncodedCards>
    requires Ready(s)
  {
    var last := s.lastAction;
    if IsSingle(last) || IsPair(last) then BeatSmallUpTo(s.myCardCounter, last.kind, last.start + 1, MAX_CARD_TYPE_NUM)
    else if IsTripletOrQuadruple(last) then BeatTripletUpTo(s, g, TWO + 1)
    else if IsChain(last) then ChainScanTo(s, g, ACE + 1).out
    else []
  }

  /** The list validActions returns. */
  function ValidMoves(s: DoudizhuState, gen: bool): seq<EncodedCards>
    requires Ready(s)
  {
    var h := s.myCardCounter;
    var last := s.lastAction;
    var g := WantKickers(s, gen);
    if IsPass(last) then
      LeadSmallUpTo(h, MAX_CARD_TYPE_NUM) + LeadTripletsUpTo(s, g, TWO + 1) + LeadChainsAsWritten(s, g) + BombsAndRocket(s)
    else if IsRocket(last) then [NO_CARDS]
    else if IsBomb(last) then [NO_CARDS] + HigherBombs(BombsUpTo(h, TWO + 1), last.combo) + RocketTail(s)
    else [NO_CARDS] + Answers(s, g) + BombsAndRocket(s)
  }

  /** validActions: pass first unless I lead; against a rocket nothing else; against a bomb
      the higher bombs and the rocket; otherwise the moves of the branch, then every bomb and
      the rocket. */
  method ValidActions(s: DoudizhuState, gen: bool) returns (actions: seq<EncodedCards>)
    requires Ready(s)
    ensures actions == ValidMoves(s, gen)
  {
    var rocket := GenRocket(s);
    var bombs := GenBombs(s);
    var last := s.lastAction;
    var g := gen && (HasAppendix(last) || IsPass(last));
    var rocketTail := if rocket != NO_CARDS then [rocket] else [];
    if IsPass(last) {
      var small := LeadSmall(s);
      var triplets := LeadTriplets(s, g);
      var chains := LeadChainMoves(s, g);
      actions := small + triplets + chains + (bombs + rocketTail);
    } else if IsRocket(last) {
      actions := [NO_CARDS];
    } else if IsBomb(last) {
      var higher := BeatBomb(bombs, last.combo);
      actions := [NO_CARDS] + higher + rocketTail;
    } else {
      var more := Reply(s, g);
      actions := [NO_CARDS] + more + (bombs + rocketTail);
    }
  }

  /** The branch of validActions for a hand that is neither a pass, a rocket nor a bomb. */
  method Reply(s: DoudizhuState, g: bool) returns (more: seq<EncodedCards>)
    requires Ready(s)
    ensures more == Answers(s, g)
  {
    var last := s.lastAction;
    if IsSingle(last) || IsPair(last) {
      more := BeatSmall(s);
    } else if IsTripletOrQuadruple(last) {
      more := BeatTriplet(s, g);
    } else if IsChain(last) {
      more := BeatChain(s, g);
    } else {
      more := [];
    }
  }

  // ---------------------------------------------------------------------------
  // What the list holds
  // ---------------------------------------------------------------------------

  /** Against anything but a pass, passing is offered first; against a rocket it is all that
      is offered. */
  lemma PassFirst(s: DoudizhuState, gen: bool)
    requires Ready(s) && !IsPass(s.lastAction)
    ensures |ValidMoves(s, gen)| >= 1 && ValidMoves(s, gen)[0] == NO_CARDS
    ensures IsRocket(s.lastAction) ==> ValidMoves(s, gen) == [NO_CARDS]
  {
  }

  /** Kickers are generated only when the hand to answer carries some. */
  lemma KickersFollowLast(s: DoudizhuState)
    requires Ready(s) && !IsPass(s.lastAction) && !HasAppendix(s.lastAction)
    ensures ValidMoves(s, true) == ValidMoves(s, false)
  {
  }

  /** The rocket closes the list exactly when I hold both jokers. */
  lemma RocketTailMembers(s: DoudizhuState)
    requires |s.myCardCounter| == MAX_CARD_TYPE_NUM
    ensures forall x :: x in RocketTail(s) <==>
              x == ROCKET_CARDS && s.myCardCounter[SMALL_JOKER] == 1 && s.myCardCounter[BIG_JOKER] == 1
  {
    RocketMove(s);
  }

  /** My bombs at ranks lo .. hi-1 are four copies of each rank there I hold four of. */
  lemma {:induction false} BombsFromMembers(h: Histogram, lo: int, hi: int)
    requires |h| == MAX_CARD_TYPE_NUM && 0 <= lo && hi <= MAX_CARD_TYPE_NUM
    ensures forall x :: x in BombsFrom(h, lo, hi) <==> exists r :: lo <= r <= hi - 1 && h[r] == 4 && x == Copies(r, 4)
    decreases hi - lo
  {
    if hi > lo {
      BombsFromMembers(h, lo, hi - 1);
    }
  }

  /** Against a bomb: pass, then exactly the bombs I hold at ranks above the bomb's rank up to
      TWO, in rank order, then the rocket if I hold it. */
  lemma BombAnswers(s: DoudizhuState, gen: bool, g: Histogram, lo: int)
    requires Ready(s) && Encodable(g) && s.lastAction == Classify(g) && IsBomb(s.lastAction) && lo == s.lastAction.start + 1
    ensures ValidMoves(s, gen) == [NO_CARDS] + BombsFrom(s.myCardCounter, lo, TWO + 1) + RocketTail(s)
    ensures forall x :: x in ValidMoves(s, gen) <==>
              || x == NO_CARDS
              || (exists r :: lo <= r <= TWO && s.myCardCounter[r] == 4 && x == Copies(r, 4))
              || (x == ROCKET_CARDS && s.myCardCounter[SMALL_JOKER] == 1 && s.myCardCounter[BIG_JOKER] == 1)
  {
    var h := s.myCardCounter;
    BombWord(g);
    HigherBombsAreAbove(h, lo - 1, TWO + 1);
    BombsFromMembers(h, lo, TWO + 1);
    RocketTailMembers(s);
    BombListMembers(s, lo, ValidMoves(s, gen), BombsFrom(h, lo, TWO + 1), RocketTail(s));
  }

  lemma BombListMembers(s: DoudizhuState, lo: int, v: seq<EncodedCards>, higher: seq<EncodedCards>, tail: seq<EncodedCards>)
    requires |s.myCardCounter| == MAX_CARD_TYPE_NUM && 0 <= lo && v == [NO_CARDS] + higher + tail
    requires forall x :: x in higher <==> exists r :: lo <= r <= TWO && s.myCardCounter[r] == 4 && x == Copies(r, 4)
    requires forall x :: x in tail <==>
               x == ROCKET_CARDS && s.myCardCounter[SMALL_JOKER] == 1 && s.myCardCounter[BIG_JOKER] == 1
    ensures forall x :: x in v <==>
              || x == NO_CARDS
              || (exists r :: lo <= r <= TWO && s.myCardCounter[r] == 4 && x == Copies(r, 4))
              || (x == ROCKET_CARDS && s.myCardCounter[SMALL_JOKER] == 1 && s.myCardCounter[BIG_JOKER] == 1)
  {
    forall x
      ensures x in v <==> x == NO_CARDS || x in higher || x in tail
    {
    }
  }

  /** Against a single or a pair: pass, then `kind` copies of each rank above its rank up to
      JOKER that I hold that many of, each once and in increasing order, then my bombs and the
      rocket. */
  lemma SmallAnswers(s: DoudizhuState, gen: bool, lo: int)
    requires Ready(s) && (IsSingle(s.lastAction) || IsPair(s.lastAction)) && lo == s.lastAction.start + 1
    ensures ValidMoves(s, gen) == [NO_CARDS] + BeatSmallUpTo(s.myCardCounter, s.lastAction.kind, lo, MAX_CARD_TYPE_NUM) + BombsAndRocket(s)
    ensures forall x :: x in BeatSmallUpTo(s.myCardCounter, s.lastAction.kind, lo, MAX_CARD_TYPE_NUM) <==>
              exists r :: lo <= r < MAX_CARD_TYPE_NUM && s.myCardCounter[r] >= s.lastAction.kind &&
                x == Copies(r, s.lastAction.kind)
    ensures forall i, j :: 1 <= i < j <= |BeatSmallUpTo(s.myCardCounter, s.lastAction.kind, lo, MAX_CARD_TYPE_NUM)| ==>
              ValidMoves(s, gen)[i] < ValidMoves(s, gen)[j]
  {
    var h := s.myCardCounter;
    var last := s.lastAction;
    var small := BeatSmallUpTo(h, last.kind, lo, MAX_CARD_TYPE_NUM);
    BeatSmallMembers(h, last.kind, lo, MAX_CARD_TYPE_NUM);
    BeatSmallAscending(h, last.kind, lo, MAX_CARD_TYPE_NUM);
    SmallPrefix(ValidMoves(s, gen), small, BombsAndRocket(s));
  }

  lemma SmallPrefix(v: seq<EncodedCards>, small: seq<EncodedCards>, rest: seq<EncodedCards>)
    requires v == [NO_CARDS] + small + rest
    requires forall i, j :: 0 <= i < j < |small| ==> small[i] < small[j]
    ensures forall i, j :: 1 <= i < j <= |small| ==> v[i] < v[j]
  {
    forall i, j | 1 <= i < j <= |small|
      ensures v[i] < v[j]
    {
      assert v[i] == small[i - 1] && v[j] == small[j - 1];
    }
  }

  /** Against a chain, without kickers: pass, then exactly the chains of its kind and length
      above its start that end at ACE or below and that I hold, then my bombs and the
      rocket. */
  lemma ChainAnswersOffered(s: DoudizhuState, gen: bool, x: EncodedCards)
    requires Ready(s) && IsChain(s.lastAction) && !WantKickers(s, gen)
    ensures ValidMoves(s, gen) == [NO_CARDS] + ChainScanTo(s, false, ACE + 1).out + BombsAndRocket(s)
    ensures x in ChainScanTo(s, false, ACE + 1).out <==>
              exists b :: AnswerEnd(s, b) && x == Window(b - s.lastAction.length, b, s.lastAction.kind)
  {
    ChainAnswers(s, x);
  }

  /** Unless the hand to answer is a rocket or a bomb, every bomb I hold is offered; unless it
      is a rocket, the rocket is offered when I hold it. */
  lemma BombsAndRocketOffered(s: DoudizhuState, gen: bool)
    requires Ready(s) && !IsRocket(s.lastAction)
    ensures !IsBomb(s.lastAction) ==>
              forall r :: START_CARD <= r <= TWO && s.myCardCounter[r] == 4 ==> Copies(r, 4) in ValidMoves(s, gen)
    ensures s.myCardCounter[SMALL_JOKER] == 1 && s.myCardCounter[BIG_JOKER] == 1 ==> ROCKET_CARDS in ValidMoves(s, gen)
  {
    var h := s.myCardCounter;
    BombsMembers(h, TWO + 1);
    RocketMove(s);
    TailOffered(s, gen);
  }

  lemma TailOffered(s: DoudizhuState, gen: bool)
    requires Ready(s) && !IsRocket(s.lastAction)
    ensures !IsBomb(s.lastAction) ==> forall x :: x in BombsAndRocket(s) ==> x in ValidMoves(s, gen)
    ensures forall x :: x in RocketTail(s) ==> x in ValidMoves(s, gen)
  {
  }

  /** Leading after a pass, without kickers: every single and pair I hold is offered, and
      so are my bombs and the rocket. When no run of ranks I hold is longer than the shortest
      chain of its kind, the chains offered are exactly the chains I can lead. */
  lemma LeadOffers(s: DoudizhuState)
    requires Ready(s) && IsPass(s.lastAction)
    ensures ValidMoves(s, false) ==
              LeadSmallUpTo(s.myCardCounter, MAX_CARD_TYPE_NUM) + LeadTripletsUpTo(s, false, TWO + 1) +
              LeadChainsAsWritten(s, false) + BombsAndRocket(s)
    ensures forall r, n :: START_CARD <= r < MAX_CARD_TYPE_NUM && 1 <= n <= 2 && n <= s.myCardCounter[r] ==>
              Copies(r, n) in ValidMoves(s, false)
    ensures ShortRuns(s.myCardCounter) ==>
              forall x :: x in LeadChainsAsWritten(s, false) <==> exists j, a: nat, b: nat :: LedChain(s.myCardCounter, x, j, a, b)
    ensures ShortRuns(s.myCardCounter) ==>
              forall x, j, a: nat, b: nat :: LedChain(s.myCardCounter, x, j, a, b) ==> x in ValidMoves(s, false)
  {
    var h := s.myCardCounter;
    LeadSmallMembers(h, MAX_CARD_TYPE_NUM);
    if ShortRuns(h) {
      ShortRunChains(s);
    }
  }

  /** With short runs, the chains led as written are exactly the chains I can lead, and all
      of them are offered. */
  lemma ShortRunChains(s: DoudizhuState)
    requires Ready(s) && IsPass(s.lastAction) && ShortRuns(s.myCardCounter)
    ensures forall x :: x in LeadChainsAsWritten(s, false) <==> exists j, a: nat, b: nat :: LedChain(s.myCardCounter, x, j, a, b)
    ensures forall x :: x in LeadChainsAsWritten(s, false) ==> x in ValidMoves(s, false)
  {
    forall x
      ensures x in LeadChainsAsWritten(s, false) <==> exists j, a: nat, b: nat :: LedChain(s.myCardCounter, x, j, a, b)
    {
      AsWrittenChainMembers(s, x);
    }
  }
}

/** The answers to a hand that must be beaten: the must-beat branches of validActions for a
    bomb, a single or pair, a triplet or quadruple, and a chain. */
module Respond {
  import opened Encoding
  import opened Hands
  import opened State
  import opened Combinations
  import opened Kickers

  /** What validActions needs of its state: a legal histogram of my cards, and a hand to
      answer with the shape the Hand constructor gives. */
  predicate Ready(s: DoudizhuState)
  {
    LegalCounts(s.myCardCounter) && HandShape(s.lastAction)
  }

  /** A main part followed by each of its kicker words (`action + appendix_action`). */
  function WithKickers(action: EncodedCards, kicks: seq<EncodedCards>): seq<EncodedCards>
  {
    seq(|kicks|, i requires 0 <= i < |kicks| => Add64(action, kicks[i]))
  }

  /** The loop pushing `action + ec` for each kicker word ec. */
  method PushWithKickers(actions: seq<EncodedCards>, action: EncodedCards, kicks: seq<EncodedCards>)
    returns (out: seq<EncodedCards>)
    ensures out == actions + WithKickers(action, kicks)
  {
    out := actions;
    var m := 0;
    while m < |kicks|
      invariant 0 <= m <= |kicks|
      invariant out == actions + WithKickers(action, kicks[..m])
    {
      assert WithKickers(action, kicks[..m + 1]) == WithKickers(action, kicks[..m]) + [Add64(action, kicks[m])];
      out := out + [Add64(action, kicks[m])];
      m := m + 1;
    }
    assert kicks[..m] == kicks;
  }

  // ---------------------------------------------------------------------------
  // Against a bomb
  // ---------------------------------------------------------------------------

  /** The bombs of the list that are greater, as words, than the bomb to answer. */
  function HigherBombs(bombs: seq<EncodedCards>, combo: EncodedCards): seq<EncodedCards>
  {
    if |bombs| == 0 then []
    else HigherBombs(bombs[..|bombs| - 1], combo) + (if bombs[|bombs| - 1] > combo then [bombs[|bombs| - 1]] else [])
  }

  method BeatBomb(bombs: seq<EncodedCards>, combo: EncodedCards) returns (actions: seq<EncodedCards>)
    ensures actions == HigherBombs(bombs, combo)
  {
    actions := [];
    var m := 0;
    while m < |bombs|
      invariant 0 <= m <= |bombs|
      invariant actions == HigherBombs(bombs[..m], combo)
    {
      assert bombs[..m + 1][..m] == bombs[..m];
      if bombs[m] > combo {
        actions := actions + [bombs[m]];
      }
      m := m + 1;
    }
    assert bombs[..m] == bombs;
  }

  /** The bombs I hold at ranks lo .. hi-1, in rank order: the reference for the answers to a
      bomb. */
  function BombsFrom(h: Histogram, lo: int, hi: int): seq<EncodedCards>
    requires |h| == MAX_CARD_TYPE_NUM && 0 <= lo && hi <= MAX_CARD_TYPE_NUM
    decreases hi - lo
  {
    if hi <= lo then [] else BombsFrom(h, lo, hi - 1) + (if h[hi - 1] == 4 then [Copies(hi - 1, 4)] else [])
  }

  /** Comparing bomb words compares ranks: my bombs above the word of the bomb at rank q are
      my bombs at the ranks above q. */
  lemma {:induction false} HigherBombsAreAbove(h: Histogram, q: int, hi: int)
    requires |h| == MAX_CARD_TYPE_NUM && START_CARD <= q < MAX_CARD_TYPE_NUM && START_CARD <= hi <= TWO + 1
    ensures HigherBombs(BombsUpTo(h, hi), Copies(q, 4)) == BombsFrom(h, q + 1, hi)
    decreases hi
  {
    if hi > START_CARD {
      HigherBombsAreAbove(h, q, hi - 1);
      var b := BombsUpTo(h, hi - 1);
      if h[hi - 1] == 4 {
        assert (b + [Copies(hi - 1, 4)])[..|b|] == b;
        CopiesOrder(q, 4, hi - 1, 4);
      } else {
        assert b + [] == b;
      }
    }
  }

  /** A single rank's count packed alone. */
  lemma {:induction false} PackFromSingle(g: Histogram, q: int, lo: nat, hi: nat)
    requires lo <= hi <= |g| && 0 <= q
    requires forall r :: lo <= r < hi && r != q ==> g[r] == 0
    ensures PackFrom(g, lo, hi) == if lo <= q < hi then Shl4(g[q], q) else 0
    decreases hi - lo
  {
    if hi > lo {
      PackFromSingle(g, q, lo, hi - 1);
      ShlZero(hi - 1);
    }
  }

  /** The word of a bomb is four copies of its start rank. */
  lemma BombWord(g: Histogram)
    requires Encodable(g) && IsBomb(Classify(g))
    ensures START_CARD <= Classify(g).start < MAX_CARD_TYPE_NUM
    ensures Classify(g).combo == Copies(Classify(g).start, 4)
  {
    BombIsOneQuadruple(g);
    var q := Classify(g).start;
    PackFromSingle(g, q, START_CARD, MAX_CARD_TYPE_NUM);
    CopiesValue(q, 4);
  }

  // ---------------------------------------------------------------------------
  // Against a single or a pair
  // ---------------------------------------------------------------------------

  /** `kind` copies of each rank lo .. hi-1 that I hold at least `kind` of. */
  function BeatSmallUpTo(h: Histogram, kind: nat, lo: int, hi: int): seq<EncodedCards>
    requires |h| == MAX_CARD_TYPE_NUM && 0 <= lo && hi <= MAX_CARD_TYPE_NUM
    decreases hi - lo
  {
    if hi <= lo then [] else BeatSmallUpTo(h, kind, lo, hi - 1) + (if h[hi - 1] >= kind then [Copies(hi - 1, kind)] else [])
  }

  /** The loop over the ranks above the single or pair, up to JOKER. */
  method BeatSmall(s: DoudizhuState) returns (actions: seq<EncodedCards>)
    requires Ready(s)
    ensures actions == BeatSmallUpTo(s.myCardCounter, s.lastAction.kind, s.lastAction.start + 1, MAX_CARD_TYPE_NUM)
  {
    var h := s.myCardCounter;
    var kind := s.lastAction.kind;
    var lo := s.lastAction.start + 1;
    actions := [];
    var i := lo;
    while i <= BIG_JOKER
      invariant lo <= i <= MAX_CARD_TYPE_NUM
      invariant actions == BeatSmallUpTo(h, kind, lo, i)
    {
      if h[i] >= kind {
        var action := AddToEncodedCards(i, NO_CARDS, kind);
        actions := actions + [action];
      }
      i := i + 1;
    }
  }

  /** The list holds `kind` copies of exactly the ranks lo .. hi-1 I hold that many of. */
  lemma {:induction false} BeatSmallMembers(h: Histogram, kind: nat, lo: int, hi: int)
    requires |h| == MAX_CARD_TYPE_NUM && 0 <= lo && hi <= MAX_CARD_TYPE_NUM
    ensures forall x :: x in BeatSmallUpTo(h, kind, lo, hi) <==>
              exists r :: lo <= r < hi && h[r] >= kind && x == Copies(r, kind)
    decreases hi - lo
  {
    if hi > lo {
      BeatSmallMembers(h, kind, lo, hi - 1);
    }
  }

  /** ... once each, in increasing rank order. */
  lemma {:induction false} BeatSmallAscending(h: Histogram, kind: nat, lo: int, hi: int)
    requires |h| == MAX_CARD_TYPE_NUM && 0 <= lo && hi <= MAX_CARD_TYPE_NUM && 1 <= kind <= 15
    ensures forall i, j :: 0 <= i < j < |BeatSmallUpTo(h, kind, lo, hi)| ==>
              BeatSmallUpTo(h, kind, lo, hi)[i] < BeatSmallUpTo(h, kind, lo, hi)[j]
    decreases hi - lo
  {
    if hi > lo {
      BeatSmallAscending(h, kind, lo, hi - 1);
      BeatSmallMembers(h, kind, lo, hi - 1);
      var b := BeatSmallUpTo(h, kind, lo, hi - 1);
      forall i | 0 <= i < |b|
        ensures b[i] < Copies(hi - 1, kind)
      {
        assert b[i] in b;
        var r :| lo <= r < hi - 1 && h[r] >= kind && b[i] == Copies(r, kind);
        CopiesOrder(r, kind, hi - 1, kind);
      }
    }
  }

  // ---------------------------------------------------------------------------
  // Against a triplet or a quadruple (one rank long)
  // ---------------------------------------------------------------------------

  /** The kicker parameters a triplet or quadruple to answer imposes are usable. */
  lemma TripletReady(s: DoudizhuState)
    requires Ready(s) && IsTripletOrQuadruple(s.lastAction)
    ensures ParamsReady(ParamsFor(s.lastAction, 1, 1, 1))
  {
  }

  /** The answers at rank i: `kind` copies of i, with each kicker word when kickers are
      wanted, or alone when they are not and the kind is a triplet (the quadruple comes back
      among the bombs). */
  function TripletAt(s: DoudizhuState, gen: bool, i: int): seq<EncodedCards>
    requires Ready(s) && IsTripletOrQuadruple(s.lastAction) && 0 <= i < MAX_CARD_TYPE_NUM
  {
    var kind := s.lastAction.kind;
    if s.myCardCounter[i] < kind then []
    else if gen then
      TripletReady(s);
      WithKickers(Copies(i, kind), AppendixSpec(s, i, 1, 1, 1))
    else if kind < QUADRUPLE then [Copies(i, kind)]
    else []
  }

  function BeatTripletUpTo(s: DoudizhuState, gen: bool, hi: int): seq<EncodedCards>
    requires Ready(s) && IsTripletOrQuadruple(s.lastAction) && hi <= MAX_CARD_TYPE_NUM
    decreases hi
  {
    if hi <= s.lastAction.start + 1 then [] else BeatTripletUpTo(s, gen, hi - 1) + TripletAt(s, gen, hi - 1)
  }

  /** The loop over the ranks above the triplet or quadruple, up to TWO. */
  method BeatTriplet(s: DoudizhuState, gen: bool) returns (actions: seq<EncodedCards>)
    requires Ready(s) && IsTripletOrQuadruple(s.lastAction)
    ensures actions == BeatTripletUpTo(s, gen, TWO + 1)
  {
    var h := s.myCardCounter;
    var kind := s.lastAction.kind;
    var lo := s.lastAction.start + 1;
    actions := [];
    if lo > TWO {
      return;
    }
    var i := lo;
    while i <= TWO
      invariant lo <= i <= TWO + 1
      invariant actions == BeatTripletUpTo(s, gen, i)
    {
      if h[i] >= kind {
        var action := AddToEncodedCards(i, NO_CARDS, kind);
        if gen {
          TripletReady(s);
          var appendixActions := GenerateAppendix(s, i, 1, 1, 1);
          actions := PushWithKickers(actions, action, appendixActions);
        } else if kind < QUADRUPLE {
          actions := actions + [action];
        }
      }
      i := i + 1;
    }
  }

  /** Without kickers, the answers to a bare triplet are three copies of each higher rank up
      to TWO that I hold three of, and a quadruple gets no answer here. */
  lemma {:induction false} TripletsBare(s: DoudizhuState, hi: int)
    requires Ready(s) && IsTripletOrQuadruple(s.lastAction) && hi <= TWO + 1
    ensures s.lastAction.kind == TRIPLET ==>
              BeatTripletUpTo(s, false, hi) == BeatSmallUpTo(s.myCardCounter, TRIPLET, s.lastAction.start + 1, hi)
    ensures s.lastAction.kind == QUADRUPLE ==> BeatTripletUpTo(s, false, hi) == []
    decreases hi
  {
    if hi > s.lastAction.start + 1 {
      TripletsBare(s, hi - 1);
    }
  }

  /** With kickers, an answer at rank i holds `kind` copies of i and the kicker copies on
      eligible ranks other than i. */
  lemma TripletWithKickers(s: DoudizhuState, i: int, x: EncodedCards)
    requires Ready(s) && IsTripletOrQuadruple(s.lastAction) && START_CARD <= i < MAX_CARD_TYPE_NUM
    requires x in TripletAt(s, true, i)
    ensures s.myCardCounter[i] >= s.lastAction.kind
    ensures exists ranks ::
              && KickerChoice(s.myCardCounter, i, ParamsFor(s.lastAction, 1, 1, 1), ranks, NeededFor(s.lastAction, 1, 1, 1))
              && MainWithKickers(x, i, s.lastAction.kind, ranks, ParamsFor(s.lastAction, 1, 1, 1).appendixType)
  {
    var kind := s.lastAction.kind;
    var p := ParamsFor(s.lastAction, 1, 1, 1);
    var k := NeededFor(s.lastAction, 1, 1, 1);
    var kicks := AppendixSpec(s, i, 1, 1, 1);
    var m :| 0 <= m < |kicks| && x == Add64(Copies(i, kind), kicks[m]);
    AppendixKickers(s, i, 1, 1, 1);
    var ranks :| KickerChoice(s.myCardCounter, i, p, ranks, k) && KickerSet(kicks[m], ranks, p.appendixType);
    AddMain(i, kind, kicks[m], ranks, p.appendixType, s.myCardCounter, p, k);
  }

  /** The word holds `kind` copies of rank i, t copies of each kicker rank, and nothing
      else. */
  ghost predicate MainWithKickers(x: EncodedCards, i: int, kind: int, ranks: seq<int>, t: int)
  {
    && i !in ranks
    && forall r: nat :: NumCardOfEncoded(r, x) == if r == i then kind else if r in ranks then t else 0
  }

  lemma AddMain(i: nat, kind: nat, kick: EncodedCards, ranks: seq<int>, t: int,
                h: Histogram, p: AppendixParams, k: int)
    requires i < MAX_CARD_TYPE_NUM && kind <= 15 && |h| == MAX_CARD_TYPE_NUM
    requires p.seqLength == 1 && t == p.appendixType
    requires KickerChoice(h, i, p, ranks, k) && KickerSet(kick, ranks, t)
    ensures MainWithKickers(Add64(Copies(i, kind), kick), i, kind, ranks, t)
  {
    assert i !in ranks by {
      forall j | 0 <= j < |ranks|
        ensures ranks[j] != i
      {
        assert Eligible(h, i, p.seqLength, p.appendixType, ranks[j]);
      }
    }
    CopiesValue(i, kind);
    assert NumCardOfEncoded(i, kick) == 0;
    AddToEncodedCardsFields(i, kick, kind);
  }

  // ---------------------------------------------------------------------------
  // Against a chain
  // ---------------------------------------------------------------------------

  /** `n` copies of each rank lo .. hi-1. */
  function Window(lo: nat, hi: nat, n: int): int
    decreases hi - lo
  {
    if hi <= lo then 0 else Window(lo, hi - 1, n) + Shl4(n, hi - 1)
  }

  lemma {:induction false} WindowBounds(lo: nat, hi: nat, n: int)
    requires 0 <= n <= 15
    ensures 0 <= Window(lo, hi, n) < Shl4(1, hi)
    decreases hi - lo
  {
    ShlPositive(hi);
    if hi > lo {
      WindowBounds(lo, hi - 1, n);
      ShlBelowNext(n, hi - 1);
      ShlMul(15, hi - 1);
      ShlMono(n, 15, hi - 1);
      ShlScale(1, hi - 1);
      assert Shl4(1, hi) == 16 * Shl4(1, hi - 1);
    }
  }

  /** Dropping the lowest rank of a window. */
  lemma {:induction false} WindowLow(lo: nat, hi: nat, n: int)
    requires lo < hi
    ensures Window(lo, hi, n) == Shl4(n, lo) + Window(lo + 1, hi, n)
    decreases hi - lo
  {
    if hi > lo + 1 {
      WindowLow(lo, hi - 1, n);
    }
  }

  /** A window's fields: n inside it, 0 outside. */
  lemma {:induction false} WindowFields(lo: nat, hi: nat, n: int, r: nat)
    requires 0 <= n <= 15
    ensures NumCardOfEncoded(r, Window(lo, hi, n)) == if lo <= r < hi then n else 0
    decreases hi - lo
  {
    if hi <= lo {
      ShrZero(r);
    } else {
      WindowFields(lo, hi - 1, n, r);
      WindowFields(lo, hi - 1, n, hi - 1);
      AddAt(Window(lo, hi - 1, n), hi - 1, n, r);
    }
  }

  /** The length of the run of ranks holding at least n that ends at hi-1, not counting ranks
      below lo. */
  function RunLength(h: Histogram, n: int, lo: int, hi: int): (len: int)
    requires |h| == MAX_CARD_TYPE_NUM && 0 <= lo && hi <= MAX_CARD_TYPE_NUM
    ensures 0 <= len && (hi <= lo ==> len == 0) && (hi > lo ==> len <= hi - lo)
    decreases hi - lo
  {
    if hi <= lo then 0 else if h[hi - 1] >= n then RunLength(h, n, lo, hi - 1) + 1 else 0
  }

  /** Every rank a .. b-1 holds at least n. */
  predicate Held(h: Histogram, n: int, a: int, b: int)
    requires |h| == MAX_CARD_TYPE_NUM && 0 <= a
  {
    forall r :: a <= r < b && r < MAX_CARD_TYPE_NUM ==> h[r] >= n
  }

  /** A run of at least len ranks ends at hi-1 exactly when the len ranks up to hi-1 lie at
      or above lo and are all held. */
  lemma {:induction false} RunLengthAtLeast(h: Histogram, n: int, lo: int, hi: int, len: int)
    requires |h| == MAX_CARD_TYPE_NUM && 0 <= lo && hi <= MAX_CARD_TYPE_NUM && len >= 1
    ensures RunLength(h, n, lo, hi) >= len <==> hi - len >= lo && Held(h, n, hi - len, hi)
    decreases len
  {
    if len > 1 && hi > lo && h[hi - 1] >= n {
      RunLengthAtLeast(h, n, lo, hi - 1, len - 1);
    }
  }

  /** The kicker parameters a chain to answer imposes are usable. */
  lemma ChainReady(s: DoudizhuState)
    requires Ready(s) && IsChain(s.lastAction)
    ensures ParamsReady(ParamsFor(s.lastAction, 1, 1, 1))
  {
  }

  /** What one window adds to the answer list: the main part with each kicker word, or alone. */
  function Emit(s: DoudizhuState, gen: bool, i: int, action: EncodedCards): seq<EncodedCards>
    requires Ready(s) && IsChain(s.lastAction)
  {
    if gen then
      ChainReady(s);
      WithKickers(action, AppendixSpec(s, i, 1, 1, 1))
    else [action]
  }

  /** The variables of the chain loop: cur_length, action and the answers so far. */
  datatype ChainScan = ChainScan(curLength: int, action: EncodedCards, out: seq<EncodedCards>)

  /** One turn of the chain loop, at rank i. */
  function ChainStep(s: DoudizhuState, gen: bool, i: int, sc: ChainScan): ChainScan
    requires Ready(s) && IsChain(s.lastAction) && 0 <= i < MAX_CARD_TYPE_NUM
  {
    var kind := s.lastAction.kind;
    var len := s.lastAction.length;
    if s.myCardCounter[i] >= kind then
      var cur := sc.curLength + 1;
      var a1 := AddToEncodedCards(i, sc.action, kind);
      var a2 := if cur > len && i - len >= 0 then MinusFromEncodedCards(i - len, a1, kind) else a1;
      ChainScan(cur, a2, if cur >= len then sc.out + Emit(s, gen, i, a2) else sc.out)
    else ChainScan(0, NO_CARDS, sc.out)
  }

  /** The variables after ranks start+1 .. hi-1. */
  function ChainScanTo(s: DoudizhuState, gen: bool, hi: int): ChainScan
    requires Ready(s) && IsChain(s.lastAction) && hi <= MAX_CARD_TYPE_NUM
    decreases hi
  {
    if hi <= s.lastAction.start + 1 then ChainScan(0, NO_CARDS, [])
    else ChainStep(s, gen, hi - 1, ChainScanTo(s, gen, hi - 1))
  }

  lemma ChainScanNext(s: DoudizhuState, gen: bool, i: int)
    requires Ready(s) && IsChain(s.lastAction) && s.lastAction.start + 1 <= i < MAX_CARD_TYPE_NUM
    ensures ChainScanTo(s, gen, i + 1) == ChainStep(s, gen, i, ChainScanTo(s, gen, i))
  {
  }

  /** The current run never reaches below the first rank scanned. */
  lemma {:induction false} ChainScanLength(s: DoudizhuState, gen: bool, hi: int)
    requires Ready(s) && IsChain(s.lastAction) && s.lastAction.start + 1 <= hi <= MAX_CARD_TYPE_NUM
    ensures 0 <= ChainScanTo(s, gen, hi).curLength <= hi - (s.lastAction.start + 1)
    decreases hi
  {
    if hi > s.lastAction.start + 1 {
      ChainScanLength(s, gen, hi - 1);
    }
  }

  /** The body of the chain loop. */
  method ChainTurn(s: DoudizhuState, gen: bool, i: int, curLength: int, action: EncodedCards, actions: seq<EncodedCards>)
    returns (curLength': int, action': EncodedCards, actions': seq<EncodedCards>)
    requires Ready(s) && IsChain(s.lastAction) && 0 <= i < MAX_CARD_TYPE_NUM
    requires curLength <= i - START_CARD
    ensures ChainScan(curLength', action', actions') == ChainStep(s, gen, i, ChainScan(curLength, action, actions))
  {
    var kind := s.lastAction.kind;
    var len := s.lastAction.length;
    curLength', action', actions' := curLength, action, actions;
    if s.myCardCounter[i] >= kind {
      curLength' := curLength + 1;
      action' := AddToEncodedCards(i, action, kind);
      if curLength' > len {
        action' := MinusFromEncodedCards(i - len, action', kind);
      }
      if curLength' >= len {
        if gen {
          ChainReady(s);
          var appendixActions := GenerateAppendix(s, i, 1, 1, 1);
          actions' := PushWithKickers(actions, action', appendixActions);
        } else {
          actions' := actions + [action'];
        }
      }
    } else {
      curLength' := 0;
      action' := NO_CARDS;
    }
  }

  /** The loop over the ranks above the chain's start, up to ACE. */
  method BeatChain(s: DoudizhuState, gen: bool) returns (actions: seq<EncodedCards>)
    requires Ready(s) && IsChain(s.lastAction)
    ensures actions == ChainScanTo(s, gen, ACE + 1).out
  {
    var lo := s.lastAction.start + 1;
    actions := [];
    if lo > ACE {
      return;
    }
    var curLength := 0;
    var action := NO_CARDS;
    var i := lo;
    while i <= ACE
      invariant lo <= i <= ACE + 1
      invariant ChainScan(curLength, action, actions) == ChainScanTo(s, gen, i)
    {
      ChainScanLength(s, gen, i);
      curLength, action, actions := ChainTurn(s, gen, i, curLength, action, actions);
      ChainScanNext(s, gen, i);
      i := i + 1;
    }
  }

  /** The reference: for each rank i up to hi-1 that ends `length` held ranks above the start,
      the window of those ranks. */
  function ChainRef(s: DoudizhuState, gen: bool, hi: int): seq<EncodedCards>
    requires Ready(s) && IsChain(s.lastAction) && hi <= MAX_CARD_TYPE_NUM
    decreases hi
  {
    var kind := s.lastAction.kind;
    var len := s.lastAction.length;
    var lo := s.lastAction.start + 1;
    if hi <= lo then []
    else
      ChainRef(s, gen, hi - 1) +
      (if hi - len >= lo && Held(s.myCardCounter, kind, hi - len, hi) then
         WindowBounds(hi - len, hi, kind);
         ShlFieldMono(hi, 16);
         Powers();
         Emit(s, gen, hi - 1, Window(hi - len, hi, kind))
       else [])
  }

  /** One turn, at rank hi-1, keeps action at the window of the last min(cur_length, length)
      ranks. */
  lemma ChainStepVars(s: DoudizhuState, gen: bool, hi: int, sc: ChainScan)
    requires Ready(s) && IsChain(s.lastAction) && s.lastAction.start + 1 < hi <= MAX_CARD_TYPE_NUM
    requires 0 <= sc.curLength <= hi - 1 - (s.lastAction.start + 1)
    requires sc.action == Window(hi - 1 - Min(sc.curLength, s.lastAction.length), hi - 1, s.lastAction.kind)
    ensures var cur := if s.myCardCounter[hi - 1] >= s.lastAction.kind then sc.curLength + 1 else 0;
      && ChainStep(s, gen, hi - 1, sc).curLength == cur
      && ChainStep(s, gen, hi - 1, sc).action == Window(hi - Min(cur, s.lastAction.length), hi, s.lastAction.kind)
  {
    var kind := s.lastAction.kind;
    var len := s.lastAction.length;
    var i := hi - 1;
    var lo := i - Min(sc.curLength, len);
    if s.myCardCounter[i] >= kind {
      WindowFields(lo, i, kind, i);
      AddToEncodedCardsFields(i, sc.action, kind);
      var a1 := AddToEncodedCards(i, sc.action, kind);
      assert a1 == Window(lo, hi, kind);
      if sc.curLength + 1 > len {
        WindowFields(lo, hi, kind, i - len);
        MinusFromEncodedCardsFields(i - len, a1, kind);
        WindowLow(lo, hi, kind);
      }
    }
  }

  /** The loop keeps cur_length at the length of the current run and action at the window of
      its last min(cur_length, length) ranks. */
  lemma {:induction false} ChainScanVars(s: DoudizhuState, gen: bool, hi: int)
    requires Ready(s) && IsChain(s.lastAction) && s.lastAction.start + 1 <= hi <= MAX_CARD_TYPE_NUM
    ensures ChainScanTo(s, gen, hi).curLength == RunLength(s.myCardCounter, s.lastAction.kind, s.lastAction.start + 1, hi)
    ensures ChainScanTo(s, gen, hi).action ==
              Window(hi - Min(ChainScanTo(s, gen, hi).curLength, s.lastAction.length), hi, s.lastAction.kind)
    decreases hi
  {
    if hi > s.lastAction.start + 1 {
      ChainScanVars(s, gen, hi - 1);
      ChainScanLength(s, gen, hi - 1);
      ChainStepVars(s, gen, hi, ChainScanTo(s, gen, hi - 1));
    }
  }

  /** The chain loop emits exactly the windows of the reference. */
  lemma {:induction false} ChainScanOut(s: DoudizhuState, gen: bool, hi: int)
    requires Ready(s) && IsChain(s.lastAction) && hi <= MAX_CARD_TYPE_NUM
    ensures ChainScanTo(s, gen, hi).out == ChainRef(s, gen, hi)
    decreases hi
  {
    if hi > s.lastAction.start + 1 {
      ChainScanOut(s, gen, hi - 1);
      ChainScanOutStep(s, gen, hi);
    }
  }

  /** One turn of the chain loop emits what the reference adds at rank hi-1. */
  lemma ChainScanOutStep(s: DoudizhuState, gen: bool, hi: int)
    requires Ready(s) && IsChain(s.lastAction) && s.lastAction.start + 1 < hi <= MAX_CARD_TYPE_NUM
    requires ChainScanTo(s, gen, hi - 1).out == ChainRef(s, gen, hi - 1)
    ensures ChainScanTo(s, gen, hi).out == ChainRef(s, gen, hi)
  {
    ChainScanVars(s, gen, hi);
    RunLengthAtLeast(s.myCardCounter, s.lastAction.kind, s.lastAction.start + 1, hi, s.lastAction.length);
  }

  /** A window the chain answers may end at b: `length` ranks b-length .. b-1, all above the
      chain's start, up to hi-1, each held `kind` times. */
  ghost predicate ChainEnd(s: DoudizhuState, b: int, hi: int)
    requires Ready(s) && IsChain(s.lastAction)
  {
    && s.lastAction.start + 1 <= b - s.lastAction.length
    && b <= hi
    && Held(s.myCardCounter, s.lastAction.kind, b - s.lastAction.length, b)
  }

  /** Without kickers, the answers to a chain are exactly the windows of `length` held ranks
      above its start. */
  lemma {:induction false} ChainRefMembers(s: DoudizhuState, hi: int, x: EncodedCards)
    requires Ready(s) && IsChain(s.lastAction) && hi <= MAX_CARD_TYPE_NUM
    ensures x in ChainRef(s, false, hi) <==>
              exists b :: ChainEnd(s, b, hi) && x == Window(b - s.lastAction.length, b, s.lastAction.kind)
    decreases hi
  {
    if hi > s.lastAction.start + 1 {
      ChainRefMembers(s, hi - 1, x);
      ChainRefUnfold(s, hi);
      ChainEndsStep(s, hi - 1, hi, x, ChainRef(s, false, hi - 1), ChainRef(s, false, hi));
    }
  }

  /** The window the reference adds at rank hi-1, without kickers. */
  function ChainExtra(s: DoudizhuState, hi: int): seq<EncodedCards>
    requires Ready(s) && IsChain(s.lastAction) && hi <= MAX_CARD_TYPE_NUM
  {
    var len := s.lastAction.length;
    if hi - len >= s.lastAction.start + 1 && Held(s.myCardCounter, s.lastAction.kind, hi - len, hi) then
      WindowBounds(hi - len, hi, s.lastAction.kind);
      ShlFieldMono(hi, 16);
      Powers();
      [Window(hi - len, hi, s.lastAction.kind)]
    else []
  }

  lemma ChainRefUnfold(s: DoudizhuState, hi: int)
    requires Ready(s) && IsChain(s.lastAction) && s.lastAction.start + 1 < hi <= MAX_CARD_TYPE_NUM
    ensures ChainRef(s, false, hi) == ChainRef(s, false, hi - 1) + ChainExtra(s, hi)
  {
  }

  lemma ChainEndsStep(s: DoudizhuState, p: int, hi: int, x: EncodedCards, prev: seq<EncodedCards>, cur: seq<EncodedCards>)
    requires Ready(s) && IsChain(s.lastAction) && p == hi - 1 && hi <= MAX_CARD_TYPE_NUM
    requires cur == prev + ChainExtra(s, hi)
    requires x in prev <==> exists b :: ChainEnd(s, b, p) && x == Window(b - s.lastAction.length, b, s.lastAction.kind)
    ensures x in cur <==> exists b :: ChainEnd(s, b, hi) && x == Window(b - s.lastAction.length, b, s.lastAction.kind)
  {
    var kind := s.lastAction.kind;
    var len := s.lastAction.length;
    if b :| ChainEnd(s, b, hi) && x == Window(b - len, b, kind) {
      if b < hi {
        assert ChainEnd(s, b, p);
      }
    }
    if x in prev {
      var b :| ChainEnd(s, b, p) && x == Window(b - len, b, kind);
      assert ChainEnd(s, b, hi);
    }
    if x in ChainExtra(s, hi) {
      assert ChainEnd(s, hi, hi);
    }
  }

  /** The end of an answer window: ranks up to ACE. */
  ghost predicate AnswerEnd(s: DoudizhuState, b: int)
    requires Ready(s) && IsChain(s.lastAction)
  {
    ChainEnd(s, b, ACE + 1)
  }

  /** Without kickers, the answers to a chain are exactly the chains of the same kind and
      length that start above its start, end at ACE or below, and that I hold: each holds
      `kind` copies of each of `length` consecutive ranks and nothing else. */
  lemma ChainAnswers(s: DoudizhuState, x: EncodedCards)
    requires Ready(s) && IsChain(s.lastAction)
    ensures x in ChainScanTo(s, false, ACE + 1).out <==>
              exists b :: AnswerEnd(s, b) && x == Window(b - s.lastAction.length, b, s.lastAction.kind)
    ensures x in ChainScanTo(s, false, ACE + 1).out ==>
              exists b :: AnswerEnd(s, b) &&
                forall r: nat :: NumCardOfEncoded(r, x) == if b - s.lastAction.length <= r < b then s.lastAction.kind else 0
  {
    AnswersAreRef(s, x);
    if x in ChainScanTo(s, false, ACE + 1).out {
      var b :| AnswerEnd(s, b) && x == Window(b - s.lastAction.length, b, s.lastAction.kind);
      WindowOfChain(s, b, x);
    }
  }

  lemma AnswersAreRef(s: DoudizhuState, x: EncodedCards)
    requires Ready(s) && IsChain(s.lastAction)
    ensures x in ChainScanTo(s, false, ACE + 1).out <==>
              exists b :: AnswerEnd(s, b) && x == Window(b - s.lastAction.length, b, s.lastAction.kind)
  {
    ChainScanOut(s, false, ACE + 1);
    ChainRefMembers(s, ACE + 1, x);
    AnswersVia(s, x, ACE + 1, ChainScanTo(s, false, ACE + 1).out, ChainRef(s, false, ACE + 1));
  }

  lemma AnswersVia(s: DoudizhuState, x: EncodedCards, hi: int, out: seq<EncodedCards>, ref: seq<EncodedCards>)
    requires Ready(s) && IsChain(s.lastAction) && out == ref && hi == ACE + 1
    requires x in ref <==> exists b :: ChainEnd(s, b, hi) && x == Window(b - s.lastAction.length, b, s.lastAction.kind)
    ensures x in out <==> exists b :: AnswerEnd(s, b) && x == Window(b - s.lastAction.length, b, s.lastAction.kind)
  {
    var len, kind := s.lastAction.length, s.lastAction.kind;
    if x in out {
      var b :| ChainEnd(s, b, hi) && x == Window(b - len, b, kind);
      assert AnswerEnd(s, b);
    }
    if b :| AnswerEnd(s, b) && x == Window(b - len, b, kind) {
      assert ChainEnd(s, b, hi);
    }
  }

  lemma WindowOfChain(s: DoudizhuState, b: int, x: EncodedCards)
    requires Ready(s) && IsChain(s.lastAction) && AnswerEnd(s, b)
    requires x == Window(b - s.lastAction.length, b, s.lastAction.kind)
    ensures forall r: nat :: NumCardOfEncoded(r, x) == if b - s.lastAction.length <= r < b then s.lastAction.kind else 0
  {
    forall r: nat
      ensures NumCardOfEncoded(r, x) == if b - s.lastAction.length <= r < b then s.lastAction.kind else 0
    {
      WindowFields(b - s.lastAction.length, b, s.lastAction.kind, r);
    }
  }
}

/** The moves I can lead after a pass: the free-lead branch of validActions (singles and
    pairs, triplets and quadruples with or without kickers, and chains). */
module Lead {
  import opened Encoding
  import opened Hands
  import opened State
  import opened Kickers
  import opened Respond

  /** What the free lead needs of its state: a legal histogram and a pass to answer. */
  predicate LeadReady(s: DoudizhuState)
  {
    LegalCounts(s.myCardCounter) && IsPass(s.lastAction)
  }

  /** After a pass the caller's kicker parameters stand, and they are usable when the main
      part spans a rank or more. */
  lemma LeadParams(s: DoudizhuState, seqLength: int, numAppendixes: int, appendixType: int)
    requires LeadReady(s) && seqLength >= 1 && 1 <= numAppendixes <= 2 && appendixType >= 0
    ensures ParamsFor(s.lastAction, seqLength, numAppendixes, appendixType) == AppendixParams(seqLength, numAppendixes, appendixType)
    ensures ParamsReady(ParamsFor(s.lastAction, seqLength, numAppendixes, appendixType))
  {
    assert seqLength * numAppendixes >= seqLength;
  }

  lemma Associative<T>(a: seq<T>, b: seq<T>, c: seq<T>)
    ensures a + b + c == a + (b + c)
  {
  }

  /** One kicker rank per triplet, two per quadruple. */
  function KickersPer(j: int): int
  {
    if j == TRIPLET then 1 else 2
  }

  // ---------------------------------------------------------------------------
  // Singles and pairs
  // ---------------------------------------------------------------------------

  /** One and then two copies of rank i, as far as I hold them, up to jj-1 copies. */
  function SmallAt(h: Histogram, i: int, jj: int): seq<EncodedCards>
    requires |h| == MAX_CARD_TYPE_NUM && 0 <= i < MAX_CARD_TYPE_NUM
    decreases jj
  {
    if jj <= 1 then [] else SmallAt(h, i, jj - 1) + (if jj - 1 <= h[i] then [Copies(i, jj - 1)] else [])
  }

  /** The singles and pairs of ranks START_CARD .. hi-1. */
  function LeadSmallUpTo(h: Histogram, hi: int): seq<EncodedCards>
    requires |h| == MAX_CARD_TYPE_NUM && hi <= MAX_CARD_TYPE_NUM
    decreases hi
  {
    if hi <= START_CARD then [] else LeadSmallUpTo(h, hi - 1) + SmallAt(h, hi - 1, 3)
  }

  /** The loops over NINE..JOKER and over one and two copies. */
  method LeadSmall(s: DoudizhuState) returns (actions: seq<EncodedCards>)
    requires LeadReady(s)
    ensures actions == LeadSmallUpTo(s.myCardCounter, MAX_CARD_TYPE_NUM)
  {
    var h := s.myCardCounter;
    actions := [];
    var i := START_CARD;
    while i <= BIG_JOKER
      invariant START_CARD <= i <= MAX_CARD_TYPE_NUM
      invariant actions == LeadSmallUpTo(h, i)
    {
      actions := SmallTurn(h, i, actions);
      SmallUpToNext(h, i);
      i := i + 1;
    }
  }

  lemma SmallUpToNext(h: Histogram, i: int)
    requires |h| == MAX_CARD_TYPE_NUM && i < MAX_CARD_TYPE_NUM && START_CARD <= i
    ensures LeadSmallUpTo(h, i + 1) == LeadSmallUpTo(h, i) + SmallAt(h, i, 3)
  {
  }

  /** The loop over one and two copies of rank i. */
  method SmallTurn(h: Histogram, i: int, actions: seq<EncodedCards>) returns (actions': seq<EncodedCards>)
    requires |h| == MAX_CARD_TYPE_NUM && 0 <= i < MAX_CARD_TYPE_NUM
    ensures actions' == actions + SmallAt(h, i, 3)
  {
    actions' := actions;
    var j := 1;
    while j <= 2 && j <= h[i]
      invariant 1 <= j <= 3 && (j == 1 || j - 1 <= h[i])
      invariant actions' == actions + SmallAt(h, i, j)
    {
      var action := AddToEncodedCards(i, NO_CARDS, j);
      Associative(actions, SmallAt(h, i, j), [action]);
      actions' := actions' + [action];
      j := j + 1;
    }
    if j == 1 {
      assert SmallAt(h, i, 3) == SmallAt(h, i, 2) == SmallAt(h, i, 1);
    } else if j == 2 {
      assert SmallAt(h, i, 3) == SmallAt(h, i, 2);
    }
  }

  lemma {:induction false} SmallAtMembers(h: Histogram, i: int, jj: int)
    requires |h| == MAX_CARD_TYPE_NUM && 0 <= i < MAX_CARD_TYPE_NUM
    ensures forall x :: x in SmallAt(h, i, jj) <==> exists n :: 1 <= n < jj && n <= h[i] && x == Copies(i, n)
    decreases jj
  {
    if jj > 1 {
      SmallAtMembers(h, i, jj - 1);
    }
  }

  /** The free-lead singles and pairs are one or two copies of each rank I hold that many of. */
  lemma {:induction false} LeadSmallMembers(h: Histogram, hi: int)
    requires |h| == MAX_CARD_TYPE_NUM && hi <= MAX_CARD_TYPE_NUM
    ensures forall x :: x in LeadSmallUpTo(h, hi) <==>
              exists r, n :: START_CARD <= r < hi && 1 <= n <= 2 && n <= h[r] && x == Copies(r, n)
    decreases hi
  {
    if hi > START_CARD {
      var i := hi - 1;
      LeadSmallMembers(h, i);
      SmallAtMembers(h, i, 3);
      var p := LeadSmallUpTo(h, i);
      var q := SmallAt(h, i, 3);
      assert LeadSmallUpTo(h, hi) == p + q;
      forall x
        ensures x in p + q <==> exists r, n :: START_CARD <= r < hi && 1 <= n <= 2 && n <= h[r] && x == Copies(r, n)
      {
        if x in p {
          var r, n :| START_CARD <= r < i && 1 <= n <= 2 && n <= h[r] && x == Copies(r, n);
        } else if x in q {
          var n :| 1 <= n < 3 && n <= h[i] && x == Copies(i, n);
        }
        if exists r, n :: START_CARD <= r < hi && 1 <= n <= 2 && n <= h[r] && x == Copies(r, n) {
          var r, n :| START_CARD <= r < hi && 1 <= n <= 2 && n <= h[r] && x == Copies(r, n);
          if r < i {
            assert x in p;
          } else {
            assert r == i && 1 <= n < 3 && n <= h[i] && x == Copies(i, n);
          }
        }
      }
    }
  }

  /** Strictly increasing. */
  ghost predicate Increasing(xs: seq<EncodedCards>)
  {
    forall a, b :: 0 <= a < b < |xs| ==> xs[a] < xs[b]
  }

  lemma IncreasingConcat(p: seq<EncodedCards>, q: seq<EncodedCards>, m: int)
    requires Increasing(p) && Increasing(q)
    requires forall a :: 0 <= a < |p| ==> p[a] < m
    requires forall b :: 0 <= b < |q| ==> m <= q[b]
    ensures Increasing(p + q)
  {
    forall a, b | 0 <= a < b < |p + q|
      ensures (p + q)[a] < (p + q)[b]
    {
      if b < |p| {
        assert (p + q)[a] == p[a] && (p + q)[b] == p[b];
      } else if a >= |p| {
        assert (p + q)[a] == q[a - |p|] && (p + q)[b] == q[b - |p|];
      } else {
        assert (p + q)[a] == p[a] && (p + q)[b] == q[b - |p|];
      }
    }
  }

  /** The single of rank i comes before its pair, and both come after lower ranks' moves. */
  lemma SmallAtIncreasing(h: Histogram, i: int)
    requires |h| == MAX_CARD_TYPE_NUM && 0 <= i < MAX_CARD_TYPE_NUM
    ensures Increasing(SmallAt(h, i, 3))
    ensures forall b :: 0 <= b < |SmallAt(h, i, 3)| ==> Copies(i, 1) <= SmallAt(h, i, 3)[b]
  {
    CopiesOrder(i, 1, i, 2);
  }

  /** The singles and pairs below rank i come before the single of rank i. */
  lemma SmallBelow(h: Histogram, i: int)
    requires |h| == MAX_CARD_TYPE_NUM && START_CARD <= i < MAX_CARD_TYPE_NUM
    ensures forall a :: 0 <= a < |LeadSmallUpTo(h, i)| ==> LeadSmallUpTo(h, i)[a] < Copies(i, 1)
  {
    LeadSmallMembers(h, i);
    var p := LeadSmallUpTo(h, i);
    forall a | 0 <= a < |p|
      ensures p[a] < Copies(i, 1)
    {
      assert p[a] in p;
      var r, n :| START_CARD <= r < i && 1 <= n <= 2 && n <= h[r] && p[a] == Copies(r, n);
      CopiesOrder(r, n, i, 1);
    }
  }

  /** ... in increasing order: by rank, and the single before the pair. */
  lemma {:induction false} LeadSmallAscending(h: Histogram, hi: int)
    requires |h| == MAX_CARD_TYPE_NUM && hi <= MAX_CARD_TYPE_NUM
    ensures Increasing(LeadSmallUpTo(h, hi))
    decreases hi
  {
    if hi > START_CARD {
      LeadSmallAscending(h, hi - 1);
      SmallAscendingStep(h, hi - 1);
    }
  }

  lemma SmallAscendingStep(h: Histogram, i: int)
    requires |h| == MAX_CARD_TYPE_NUM && START_CARD <= i < MAX_CARD_TYPE_NUM
    requires Increasing(LeadSmallUpTo(h, i))
    ensures Increasing(LeadSmallUpTo(h, i) + SmallAt(h, i, 3))
  {
    SmallAtIncreasing(h, i);
    SmallBelow(h, i);
    IncreasingConcat(LeadSmallUpTo(h, i), SmallAt(h, i, 3), Copies(i, 1));
  }

  // ---------------------------------------------------------------------------
  // Triplets and quadruples
  // ---------------------------------------------------------------------------

  /** What j copies of rank i lead to: with single and then with pair kickers (one kicker rank
      for a triplet, two for a quadruple) when kickers are wanted; alone otherwise, except the
      bare quadruple, which comes back among the bombs. */
  function LeadTripletJ(s: DoudizhuState, gen: bool, i: int, j: int): seq<EncodedCards>
    requires LeadReady(s) && 0 <= i < MAX_CARD_TYPE_NUM && TRIPLET <= j <= QUADRUPLE
  {
    if gen then
      KickerGroup(s, i, 1, KickersPer(j), 1, Copies(i, j)) + KickerGroup(s, i, 1, KickersPer(j), 2, Copies(i, j))
    else if j < QUADRUPLE then [Copies(i, j)]
    else []
  }

  /** The moves with three .. jj-1 copies of rank i, as far as I hold them. */
  function LeadTripletAt(s: DoudizhuState, gen: bool, i: int, jj: int): seq<EncodedCards>
    requires LeadReady(s) && 0 <= i < MAX_CARD_TYPE_NUM && jj <= QUADRUPLE + 1
    decreases jj
  {
    if jj <= TRIPLET then []
    else LeadTripletAt(s, gen, i, jj - 1) + (if jj - 1 <= s.myCardCounter[i] then LeadTripletJ(s, gen, i, jj - 1) else [])
  }

  function LeadTripletsUpTo(s: DoudizhuState, gen: bool, hi: int): seq<EncodedCards>
    requires LeadReady(s) && hi <= MAX_CARD_TYPE_NUM
    decreases hi
  {
    if hi <= START_CARD then [] else LeadTripletsUpTo(s, gen, hi - 1) + LeadTripletAt(s, gen, hi - 1, QUADRUPLE + 1)
  }

  /** The moves made of `action` and each kicker word of t copies, for a main part of
      seqLength ranks ending at rank i. */
  function KickerGroup(s: DoudizhuState, i: int, seqLength: int, numAppendixes: int, t: int, action: EncodedCards)
    : seq<EncodedCards>
    requires LeadReady(s) && seqLength >= 1 && 1 <= numAppendixes <= 2 && t >= 0
  {
    LeadParams(s, seqLength, numAppendixes, t);
    WithKickers(action, AppendixSpec(s, i, seqLength, numAppendixes, t))
  }

  /** `action + ec` for each kicker word of a main part ending at rank i. */
  method PushKickerGroup(s: DoudizhuState, i: int, seqLength: int, numAppendixes: int, t: int,
                         action: EncodedCards, actions: seq<EncodedCards>)
    returns (actions': seq<EncodedCards>)
    requires LeadReady(s) && seqLength >= 1 && 1 <= numAppendixes <= 2 && t >= 0
    ensures actions' == actions + KickerGroup(s, i, seqLength, numAppendixes, t, action)
  {
    LeadParams(s, seqLength, numAppendixes, t);
    var appendixActions := GenerateAppendix(s, i, seqLength, numAppendixes, t);
    actions' := PushWithKickers(actions, action, appendixActions);
  }

  /** The body of the loop over j: j copies of rank i, with each choice of kickers. */
  method LeadTripletTurn(s: DoudizhuState, gen: bool, i: int, j: int, actions: seq<EncodedCards>)
    returns (actions': seq<EncodedCards>)
    requires LeadReady(s) && 0 <= i < MAX_CARD_TYPE_NUM && TRIPLET <= j <= QUADRUPLE
    ensures actions' == actions + LeadTripletJ(s, gen, i, j)
  {
    var action := AddToEncodedCards(i, NO_CARDS, j);
    actions' := actions;
    if gen {
      var numAppendix := if j == 3 then 1 else 2;
      ghost var g1 := KickerGroup(s, i, 1, KickersPer(j), 1, action);
      var k := 1;
      while k <= 2
        invariant 1 <= k <= 3
        invariant actions' == if k == 1 then actions else if k == 2 then actions + g1 else actions + LeadTripletJ(s, gen, i, j)
      {
        actions' := PushKickerGroup(s, i, 1, numAppendix, k, action, actions');
        if k == 2 {
          Associative(actions, g1, KickerGroup(s, i, 1, KickersPer(j), 2, action));
        }
        k := k + 1;
      }
    } else if j < QUADRUPLE {
      actions' := actions' + [action];
    }
  }

  /** The loops over NINE..TWO and over three and four copies. */
  method LeadTriplets(s: DoudizhuState, gen: bool) returns (actions: seq<EncodedCards>)
    requires LeadReady(s)
    ensures actions == LeadTripletsUpTo(s, gen, TWO + 1)
  {
    actions := [];
    var i := START_CARD;
    while i <= TWO
      invariant START_CARD <= i <= TWO + 1
      invariant actions == LeadTripletsUpTo(s, gen, i)
    {
      actions := TripletsOfRank(s, gen, i, actions);
      TripletsUpToNext(s, gen, i);
      i := i + 1;
    }
  }

  lemma TripletsUpToNext(s: DoudizhuState, gen: bool, i: int)
    requires LeadReady(s) && START_CARD <= i < MAX_CARD_TYPE_NUM
    ensures LeadTripletsUpTo(s, gen, i + 1) == LeadTripletsUpTo(s, gen, i) + LeadTripletAt(s, gen, i, QUADRUPLE + 1)
  {
  }

  /** The loop over three and four copies of rank i. */
  method TripletsOfRank(s: DoudizhuState, gen: bool, i: int, actions: seq<EncodedCards>) returns (actions': seq<EncodedCards>)
    requires LeadReady(s) && 0 <= i < MAX_CARD_TYPE_NUM
    ensures actions' == actions + LeadTripletAt(s, gen, i, QUADRUPLE + 1)
  {
    var h := s.myCardCounter;
    actions' := actions;
    var j := 3;
    while j <= h[i]
      invariant 3 <= j <= QUADRUPLE + 1 && (j == 3 || j - 1 <= h[i])
      invariant actions' == actions + LeadTripletAt(s, gen, i, j)
    {
      Associative(actions, LeadTripletAt(s, gen, i, j), LeadTripletJ(s, gen, i, j));
      actions' := LeadTripletTurn(s, gen, i, j, actions');
      j := j + 1;
    }
    if j == 3 {
      assert LeadTripletAt(s, gen, i, 5) == LeadTripletAt(s, gen, i, 4) == LeadTripletAt(s, gen, i, 3);
    } else if j == 4 {
      assert LeadTripletAt(s, gen, i, 5) == LeadTripletAt(s, gen, i, 4);
    }
  }

  /** Without kickers, the free-lead triplets are three copies of each rank up to TWO that I
      hold three or four of, and no bare quadruple is listed here. */
  lemma {:induction false} LeadTripletsBare(s: DoudizhuState, hi: int)
    requires LeadReady(s) && hi <= TWO + 1
    ensures LeadTripletsUpTo(s, false, hi) == BeatSmallUpTo(s.myCardCounter, TRIPLET, START_CARD, hi)
    decreases hi
  {
    if hi > START_CARD {
      LeadTripletsBare(s, hi - 1);
      var i := hi - 1;
      assert LeadTripletAt(s, false, i, 3) == [];
      assert LeadTripletAt(s, false, i, 4) == (if 3 <= s.myCardCounter[i] then [Copies(i, 3)] else []);
      assert LeadTripletAt(s, false, i, 5) == LeadTripletAt(s, false, i, 4);
    }
  }

  /** With kickers, every free-lead triplet or quadruple holds j copies of its rank and t
      copies of each of KickersPer(j) other eligible ranks, for j in three .. my count and t in
      one .. two. */
  lemma LeadTripletKickers(s: DoudizhuState, i: int, x: EncodedCards)
    requires LeadReady(s) && START_CARD <= i <= TWO
    requires x in LeadTripletAt(s, true, i, QUADRUPLE + 1)
    ensures exists j, t, ranks ::
              && TRIPLET <= j <= s.myCardCounter[i] && 1 <= t <= 2
              && KickerChoice(s.myCardCounter, i, AppendixParams(1, KickersPer(j), t), ranks, KickersPer(j))
              && MainWithKickers(x, i, j, ranks, t)
  {
    LeadTripletChoice(s, i, x, QUADRUPLE + 1);
    var j :| TRIPLET <= j <= QUADRUPLE && j <= s.myCardCounter[i] && x in LeadTripletJ(s, true, i, j);
    LeadParams(s, 1, KickersPer(j), 1);
    LeadParams(s, 1, KickersPer(j), 2);
    var t := if x in KickerGroup(s, i, 1, KickersPer(j), 1, Copies(i, j)) then 1 else 2;
    var ranks := GroupKickers(s, i, j, t, x);
  }

  /** One group: j copies of rank i with each kicker word of t copies. */
  lemma GroupKickers(s: DoudizhuState, i: int, j: int, t: int, x: EncodedCards) returns (ranks: seq<int>)
    requires LeadReady(s) && START_CARD <= i <= TWO && TRIPLET <= j <= QUADRUPLE && 1 <= t <= 2
    requires x in KickerGroup(s, i, 1, KickersPer(j), t, Copies(i, j))
    ensures KickerChoice(s.myCardCounter, i, AppendixParams(1, KickersPer(j), t), ranks, KickersPer(j))
    ensures MainWithKickers(x, i, j, ranks, t)
  {
    var h := s.myCardCounter;
    LeadParams(s, 1, KickersPer(j), t);
    var p := AppendixParams(1, KickersPer(j), t);
    var kicks := AppendixSpec(s, i, 1, KickersPer(j), t);
    var m :| 0 <= m < |kicks| && x == Add64(Copies(i, j), kicks[m]);
    AppendixKickers(s, i, 1, KickersPer(j), t);
    ranks :| KickerChoice(h, i, p, ranks, KickersPer(j)) && KickerSet(kicks[m], ranks, t);
    AddMain(i, j, kicks[m], ranks, t, h, p, KickersPer(j));
  }

  lemma {:induction false} LeadTripletChoice(s: DoudizhuState, i: int, x: EncodedCards, jj: int)
    requires LeadReady(s) && START_CARD <= i <= TWO && jj <= QUADRUPLE + 1
    requires x in LeadTripletAt(s, true, i, jj)
    ensures exists j :: TRIPLET <= j <= QUADRUPLE && j <= s.myCardCounter[i] && x in LeadTripletJ(s, true, i, j)
    decreases jj
  {
    if x !in LeadTripletAt(s, true, i, jj - 1) {
      assert x in LeadTripletJ(s, true, i, jj - 1);
    } else {
      LeadTripletChoice(s, i, x, jj - 1);
    }
  }

  // ---------------------------------------------------------------------------
  // Chains
  // ---------------------------------------------------------------------------

  /** The multiplicity of a chain: singles up to quadruples. */
  type Mult = j: int | 1 <= j <= 4 witness 1

  /** The number of ranks of a chain. */
  type Span = n: int | n >= 1 witness 1

  /** A chain the k loop emits: main part `action`, meant to hold j copies of each of the
      `len` ranks ending at rank i. The moves it stands for are those of ChainMoves. */
  datatype Chain = Chain(i: int, j: Mult, len: Span, action: EncodedCards)

  /** The variables of the chain loops: accumulated_length[j] and a[j] for j = 1..4 (entry 0
      unused), and the chains emitted so far. */
  datatype LeadScan = LeadScan(acc: seq<int>, a: seq<EncodedCards>, out: seq<Chain>)

  predicate ScanShape(st: LeadScan, hi: int)
  {
    && |st.acc| == 5 && |st.a| == 5
    && forall j :: 0 <= j < 5 ==> 0 <= st.acc[j] <= hi - START_CARD
  }

  /** The first two loops over j at rank i: each run j <= my count grows by rank i, the
      others break. */
  function Extend(h: Histogram, i: int, st: LeadScan): (r: LeadScan)
    requires LegalCounts(h) && START_CARD <= i < MAX_CARD_TYPE_NUM && ScanShape(st, i)
    ensures ScanShape(r, i + 1) && r.out == st.out
  {
    LeadScan(
      seq(5, j requires 0 <= j < 5 => if j == 0 then st.acc[0] else if j <= h[i] then st.acc[j] + 1 else 0),
      seq(5, j requires 0 <= j < 5 => if j == 0 then st.a[0] else if j <= h[i] then AddToEncodedCards(i, st.a[j], j) else NO_CARDS),
      st.out)
  }

  /** The moves a chain stands for: with single and then pair kickers for a chain of triplets
      or quadruples when kickers are wanted, its main part alone otherwise. */
  function ChainMoves(s: DoudizhuState, gen: bool, c: Chain): seq<EncodedCards>
    requires LeadReady(s)
  {
    if gen && c.j >= TRIPLET then
      KickerGroup(s, c.i, c.len, KickersPer(c.j), 1, c.action) + KickerGroup(s, c.i, c.len, KickersPer(c.j), 2, c.action)
    else [c.action]
  }

  /** The moves of each chain in turn. */
  function Moves(s: DoudizhuState, gen: bool, cs: seq<Chain>): seq<EncodedCards>
    requires LeadReady(s)
    decreases |cs|
  {
    if cs == [] then [] else Moves(s, gen, cs[..|cs| - 1]) + ChainMoves(s, gen, cs[|cs| - 1])
  }

  lemma MovesAppend(s: DoudizhuState, gen: bool, cs: seq<Chain>, c: Chain)
    requires LeadReady(s)
    ensures Moves(s, gen, cs + [c]) == Moves(s, gen, cs) + ChainMoves(s, gen, c)
  {
    assert (cs + [c])[..|cs|] == cs;
  }

  /** A move is among those of a list of chains exactly when it is a move of one of them. */
  lemma {:induction false} MovesMembers(s: DoudizhuState, gen: bool, cs: seq<Chain>, x: EncodedCards)
    requires LeadReady(s)
    ensures x in Moves(s, gen, cs) <==> exists c :: c in cs && x in ChainMoves(s, gen, c)
    decreases |cs|
  {
    if cs != [] {
      var p := cs[..|cs| - 1];
      var c := cs[|cs| - 1];
      MovesMembers(s, gen, p, x);
      assert cs == p + [c];
      if d :| d in cs && x in ChainMoves(s, gen, d) {
        if d != c {
          assert d in p;
        }
      }
      if x in Moves(s, gen, p) {
        var d :| d in p && x in ChainMoves(s, gen, d);
        assert d in cs;
      }
    }
  }

  /** Without kickers, a move of a list of chains is the main part of one of them. */
  lemma BareMembers(s: DoudizhuState, cs: seq<Chain>, x: EncodedCards)
    requires LeadReady(s)
    ensures x in Moves(s, false, cs) <==> exists c :: c in cs && x == c.action
  {
    MovesMembers(s, false, cs, x);
  }

  /** Without kickers, the moves of a list of chains are their main parts in turn. */
  lemma {:induction false} MovesBare(s: DoudizhuState, cs: seq<Chain>)
    requires LeadReady(s)
    ensures |Moves(s, false, cs)| == |cs|
    ensures forall n :: 0 <= n < |cs| ==> Moves(s, false, cs)[n] == cs[n].action
    decreases |cs|
  {
    if cs != [] {
      MovesBare(s, cs[..|cs| - 1]);
    }
  }

  /** The loop over k from k to kmax: the current word is emitted as the chain k .. i and
      then rank k is taken out of it. The result is the word left and the chains. */
  function KLoop(i: int, j: int, k: int, kmax: int, action: EncodedCards, out: seq<Chain>): (EncodedCards, seq<Chain>)
    requires START_CARD <= k && kmax <= i && 1 <= j <= 4
    decreases kmax - k
  {
    if k > kmax then (action, out)
    else KLoop(i, j, k + 1, kmax, MinusFromEncodedCards(k, action, j), out + [Chain(i, j, i - k + 1, action)])
  }

  /** The third loop over j at rank i, from j on. As written (`asWritten`), the k loop trims
      a[j] itself; otherwise it trims a copy and a[j] keeps the whole run. */
  function JLoop(asWritten: bool, i: int, j: int, st: LeadScan): (r: LeadScan)
    requires START_CARD <= i < MAX_CARD_TYPE_NUM && 1 <= j <= 5 && ScanShape(st, i + 1)
    ensures ScanShape(r, i + 1) && r.acc == st.acc
    decreases 5 - j
  {
    if j > 4 then st
    else
      var r := KLoop(i, j, i - st.acc[j] + 1, i - SeqMinLength(j) + 1, st.a[j], st.out);
      JLoop(asWritten, i, j + 1, LeadScan(st.acc, if asWritten then st.a[j := r.0] else st.a, r.1))
  }

  /** One turn of the third loop over j, trimming a copy. */
  lemma JLoopTurn(i: int, j: int, st: LeadScan, kmin: int, kmax: int, out: seq<Chain>)
    requires START_CARD <= i < MAX_CARD_TYPE_NUM && 1 <= j <= 4 && ScanShape(st, i + 1)
    requires kmin == i - st.acc[j] + 1 && kmax == i - SeqMinLength(j) + 1
    requires out == KLoop(i, j, kmin, kmax, st.a[j], st.out).1
    ensures JLoop(false, i, j, st) == JLoop(false, i, j + 1, LeadScan(st.acc, st.a, out))
    ensures ScanShape(LeadScan(st.acc, st.a, out), i + 1)
  {
  }

  /** The variables after ranks START_CARD .. hi-1. */
  function LeadScanTo(h: Histogram, asWritten: bool, hi: int): (r: LeadScan)
    requires LegalCounts(h) && START_CARD <= hi <= ACE + 1
    ensures ScanShape(r, hi)
    decreases hi
  {
    if hi == START_CARD then LeadScan([0, 0, 0, 0, 0], [0, 0, 0, 0, 0], [])
    else JLoop(asWritten, hi - 1, 1, Extend(h, hi - 1, LeadScanTo(h, asWritten, hi - 1)))
  }

  /** The chain moves of the free lead, as the loops are written. */
  function LeadChainsAsWritten(s: DoudizhuState, gen: bool): seq<EncodedCards>
    requires LeadReady(s)
  {
    Moves(s, gen, LeadScanTo(s.myCardCounter, true, ACE + 1).out)
  }

  /** The chain moves of the free lead, corrected: the k loop trims a copy of a[j]. */
  function LeadChains(s: DoudizhuState, gen: bool): seq<EncodedCards>
    requires LeadReady(s)
  {
    Moves(s, gen, LeadScanTo(s.myCardCounter, false, ACE + 1).out)
  }

  // ---------------------------------------------------------------------------
  // The chain loops, as written
  // ---------------------------------------------------------------------------

  /** The first two loops over j. */
  method ExtendRuns(h: Histogram, i: int, acc: seq<int>, a: seq<EncodedCards>, ghost out: seq<Chain>)
    returns (acc': seq<int>, a': seq<EncodedCards>)
    requires LegalCounts(h) && START_CARD <= i < MAX_CARD_TYPE_NUM && ScanShape(LeadScan(acc, a, out), i)
    ensures LeadScan(acc', a', out) == Extend(h, i, LeadScan(acc, a, out))
  {
    acc', a' := acc, a;
    var j := 1;
    while j <= h[i]
      invariant 1 <= j <= h[i] + 1 && |acc'| == 5 && |a'| == 5
      invariant forall m :: 0 <= m < 5 ==> acc'[m] == if 1 <= m < j then acc[m] + 1 else acc[m]
      invariant forall m :: 0 <= m < 5 ==> a'[m] == if 1 <= m < j then AddToEncodedCards(i, a[m], m) else a[m]
    {
      acc' := acc'[j := acc'[j] + 1];
      a' := a'[j := AddToEncodedCards(i, a'[j], j)];
      j := j + 1;
    }
    j := h[i] + 1;
    while j <= 4
      invariant h[i] + 1 <= j <= 5 && |acc'| == 5 && |a'| == 5
      invariant forall m :: 0 <= m < 5 ==> acc'[m] == if 1 <= m <= h[i] then acc[m] + 1 else if h[i] < m < j then 0 else acc[m]
      invariant forall m :: 0 <= m < 5 ==> a'[m] == if 1 <= m <= h[i] then AddToEncodedCards(i, a[m], m) else if h[i] < m < j then NO_CARDS else a[m]
    {
      acc' := acc'[j := 0];
      a' := a'[j := NO_CARDS];
      j := j + 1;
    }
    var e := Extend(h, i, LeadScan(acc, a, out));
    assert acc' == e.acc;
    assert a' == e.a;
  }

  /** The k loop: each chain k .. i is emitted from a[j] (`run`), and then rank k is taken
      out of a[j] itself. The word left in a[j] is returned; the chains emitted are kept
      alongside the moves. */
  method Subchains(s: DoudizhuState, gen: bool, i: int, j: int, kmin: int, kmax: int, run: EncodedCards,
                   actions: seq<EncodedCards>, ghost cs: seq<Chain>)
    returns (run': EncodedCards, actions': seq<EncodedCards>, ghost cs': seq<Chain>)
    requires LeadReady(s) && START_CARD <= kmin && kmax <= i && 1 <= j <= 4 && actions == Moves(s, gen, cs)
    ensures (run', cs') == KLoop(i, j, kmin, kmax, run, cs) && actions' == Moves(s, gen, cs')
  {
    run', actions', cs' := run, actions, cs;
    var k := kmin;
    while k <= kmax
      invariant kmin <= k
      invariant KLoop(i, j, k, kmax, run', cs') == KLoop(i, j, kmin, kmax, run, cs)
      invariant actions' == Moves(s, gen, cs')
      decreases kmax - k
    {
      var action := run';
      var c := Chain(i, j, i - k + 1, action);
      actions' := EmitSubchain(s, gen, c, actions');
      MovesAppend(s, gen, cs', c);
      cs' := cs' + [c];
      run' := MinusFromEncodedCards(k, run', j);
      k := k + 1;
    }
  }

  /** The body of the k loop: the moves of the chain c. */
  method EmitSubchain(s: DoudizhuState, gen: bool, c: Chain, actions: seq<EncodedCards>)
    returns (actions': seq<EncodedCards>)
    requires LeadReady(s)
    ensures actions' == actions + ChainMoves(s, gen, c)
  {
    if gen && c.j >= 3 {
      var numAppendixes := if c.j == 3 then 1 else 2;
      actions' := PushKickerGroup(s, c.i, c.len, numAppendixes, 1, c.action, actions);
      actions' := PushKickerGroup(s, c.i, c.len, numAppendixes, 2, c.action, actions');
      Associative(actions, KickerGroup(s, c.i, c.len, numAppendixes, 1, c.action), KickerGroup(s, c.i, c.len, numAppendixes, 2, c.action));
    } else {
      actions' := actions + [c.action];
    }
  }

  /** The loop over NINE..ACE with its three loops over j, as written. */
  method LeadChainMoves(s: DoudizhuState, gen: bool) returns (actions: seq<EncodedCards>)
    requires LeadReady(s)
    ensures actions == LeadChainsAsWritten(s, gen)
  {
    var acc: seq<int> := [0, 0, 0, 0, 0];
    var a: seq<EncodedCards> := [0, 0, 0, 0, 0];
    actions := [];
    ghost var cs: seq<Chain> := [];
    var i := START_CARD;
    assert LeadScan(acc, a, cs) == LeadScanTo(s.myCardCounter, true, i);
    while i <= ACE
      invariant START_CARD <= i <= ACE + 1
      invariant LeadScan(acc, a, cs) == LeadScanTo(s.myCardCounter, true, i)
      invariant actions == Moves(s, gen, cs)
    {
      LeadScanNext(s.myCardCounter, i);
      acc, a, actions, cs := LeadRank(s, gen, i, acc, a, actions, cs);
      i := i + 1;
    }
  }

  lemma LeadScanNext(h: Histogram, i: int)
    requires LegalCounts(h) && START_CARD <= i <= ACE
    ensures LeadScanTo(h, true, i + 1) == JLoop(true, i, 1, Extend(h, i, LeadScanTo(h, true, i)))
  {
  }

  /** One turn of the loop over NINE..ACE. */
  method LeadRank(s: DoudizhuState, gen: bool, i: int, acc: seq<int>, a: seq<EncodedCards>,
                  actions: seq<EncodedCards>, ghost cs: seq<Chain>)
    returns (acc': seq<int>, a': seq<EncodedCards>, actions': seq<EncodedCards>, ghost cs': seq<Chain>)
    requires LeadReady(s) && START_CARD <= i <= ACE && ScanShape(LeadScan(acc, a, cs), i) && actions == Moves(s, gen, cs)
    ensures LeadScan(acc', a', cs') == JLoop(true, i, 1, Extend(s.myCardCounter, i, LeadScan(acc, a, cs)))
    ensures actions' == Moves(s, gen, cs')
  {
    acc', a' := ExtendRuns(s.myCardCounter, i, acc, a, cs);
    actions', cs' := actions, cs;
    ghost var st := LeadScan(acc', a', cs);
    var j := 1;
    while j <= 4
      invariant 1 <= j <= 5
      invariant ScanShape(LeadScan(acc', a', cs'), i + 1)
      invariant JLoop(true, i, j, LeadScan(acc', a', cs')) == JLoop(true, i, 1, st)
      invariant actions' == Moves(s, gen, cs')
    {
      a', actions', cs' := LeadRun(s, gen, i, j, acc', a', actions', cs');
      j := j + 1;
    }
  }

  /** One turn of the third loop over j: the k loop over the run of j copies, which is left
      trimmed in a[j]. */
  method LeadRun(s: DoudizhuState, gen: bool, i: int, j: int, acc: seq<int>, a: seq<EncodedCards>,
                 actions: seq<EncodedCards>, ghost cs: seq<Chain>)
    returns (a': seq<EncodedCards>, actions': seq<EncodedCards>, ghost cs': seq<Chain>)
    requires LeadReady(s) && START_CARD <= i <= ACE && 1 <= j <= 4 && ScanShape(LeadScan(acc, a, cs), i + 1)
    requires actions == Moves(s, gen, cs)
    ensures ScanShape(LeadScan(acc, a', cs'), i + 1)
    ensures JLoop(true, i, j, LeadScan(acc, a, cs)) == JLoop(true, i, j + 1, LeadScan(acc, a', cs'))
    ensures actions' == Moves(s, gen, cs')
  {
    var kmin, kmax := i - acc[j] + 1, i - SeqMinLength(j) + 1;
    var run;
    run, actions', cs' := Subchains(s, gen, i, j, kmin, kmax, a[j], actions, cs);
    JLoopTrim(i, j, LeadScan(acc, a, cs), run, cs');
    a' := a[j := run];
  }

  // ---------------------------------------------------------------------------
  // What the chain loops (corrected) produce
  // ---------------------------------------------------------------------------

  /** The chains of j copies of ranks k .. i, for k up to kmax. */
  function SubchainsRef(i: int, j: int, k: int, kmax: int): seq<Chain>
    requires START_CARD <= k && kmax <= i < MAX_CARD_TYPE_NUM && 1 <= j <= 4
    decreases kmax - k
  {
    if k > kmax then []
    else
      WindowBounds(k, i + 1, j);
      ShlFieldMono(i + 1, 16);
      Powers();
      [Chain(i, j, i - k + 1, Window(k, i + 1, j))] + SubchainsRef(i, j, k + 1, kmax)
  }

  /** The chains ending at rank i, for each multiplicity j and on: those of every start from
      the beginning of the run of j-fold ranks ending at i to the last start that leaves the
      minimum length. */
  function RankRef(h: Histogram, i: int, j: int): seq<Chain>
    requires |h| == MAX_CARD_TYPE_NUM && START_CARD <= i < MAX_CARD_TYPE_NUM && 1 <= j <= 5
    decreases 5 - j
  {
    if j > 4 then []
    else
      var run := RunLength(h, j, START_CARD, i + 1);
      SubchainsRef(i, j, i - run + 1, i - SeqMinLength(j) + 1) + RankRef(h, i, j + 1)
  }

  /** The reference for the free-lead chains after ranks START_CARD .. hi-1. */
  function LeadChainRef(h: Histogram, hi: int): seq<Chain>
    requires |h| == MAX_CARD_TYPE_NUM && START_CARD <= hi <= MAX_CARD_TYPE_NUM
    decreases hi
  {
    if hi == START_CARD then [] else LeadChainRef(h, hi - 1) + RankRef(h, hi - 1, 1)
  }

  /** The runs the scan keeps: accumulated_length[j] is the length of the run of ranks I hold
      j of that ends just below hi, and a[j] holds j copies of each rank of that run. */
  ghost predicate RunsKept(h: Histogram, st: LeadScan, hi: int)
    requires |h| == MAX_CARD_TYPE_NUM && START_CARD <= hi <= MAX_CARD_TYPE_NUM
  {
    && |st.acc| == 5 && |st.a| == 5
    && forall j :: 1 <= j <= 4 ==>
         st.acc[j] == RunLength(h, j, START_CARD, hi) && st.a[j] == Window(hi - st.acc[j], hi, j)
  }

  /** The first two loops over j keep the runs. */
  lemma ExtendKeeps(h: Histogram, i: int, st: LeadScan)
    requires LegalCounts(h) && START_CARD <= i < MAX_CARD_TYPE_NUM && ScanShape(st, i) && RunsKept(h, st, i)
    ensures RunsKept(h, Extend(h, i, st), i + 1)
  {
    var e := Extend(h, i, st);
    forall j | 1 <= j <= 4
      ensures e.acc[j] == RunLength(h, j, START_CARD, i + 1) && e.a[j] == Window(i + 1 - e.acc[j], i + 1, j)
    {
      if j <= h[i] {
        var lo := i - st.acc[j];
        WindowFields(lo, i, j, i);
        AddToEncodedCardsFields(i, st.a[j], j);
      }
    }
  }

  /** Without the in-place trim, the third loop over j leaves the runs alone. */
  lemma {:induction false} JLoopKeeps(i: int, j: int, st: LeadScan)
    requires START_CARD <= i < MAX_CARD_TYPE_NUM && 1 <= j <= 5 && ScanShape(st, i + 1)
    ensures JLoop(false, i, j, st).a == st.a
    decreases 5 - j
  {
    if j <= 4 {
      var r := KLoop(i, j, i - st.acc[j] + 1, i - SeqMinLength(j) + 1, st.a[j], st.out);
      JLoopKeeps(i, j + 1, LeadScan(st.acc, st.a, r.1));
    }
  }

  /** The runs kept depend only on accumulated_length and a. */
  lemma RunsKeptSame(h: Histogram, x: LeadScan, y: LeadScan, hi: int)
    requires |h| == MAX_CARD_TYPE_NUM && START_CARD <= hi <= MAX_CARD_TYPE_NUM
    requires x.acc == y.acc && x.a == y.a && RunsKept(h, x, hi)
    ensures RunsKept(h, y, hi)
  {
  }

  /** Before the first rank there are no runs. */
  lemma ScanStartRuns(h: Histogram)
    requires LegalCounts(h)
    ensures RunsKept(h, LeadScanTo(h, false, START_CARD), START_CARD)
  {
    forall j | 1 <= j <= 4
      ensures Window(START_CARD, START_CARD, j) == 0
    {
    }
  }

  /** One rank of the corrected scan keeps the runs. */
  lemma ScanStepRuns(h: Histogram, i: int, st: LeadScan)
    requires LegalCounts(h) && START_CARD <= i <= ACE && ScanShape(st, i) && RunsKept(h, st, i)
    ensures RunsKept(h, JLoop(false, i, 1, Extend(h, i, st)), i + 1)
  {
    var e := Extend(h, i, st);
    ExtendKeeps(h, i, st);
    JLoopKeeps(i, 1, e);
    RunsKeptSame(h, e, JLoop(false, i, 1, e), i + 1);
  }

  /** The corrected scan keeps the runs. */
  lemma {:induction false} LeadScanRuns(h: Histogram, hi: int)
    requires LegalCounts(h) && START_CARD <= hi <= ACE + 1
    ensures RunsKept(h, LeadScanTo(h, false, hi), hi)
    decreases hi
  {
    if hi > START_CARD {
      LeadScanRuns(h, hi - 1);
      ScanStepRuns(h, hi - 1, LeadScanTo(h, false, hi - 1));
    } else {
      ScanStartRuns(h);
    }
  }

  /** Trimming the lowest rank k of the chain k .. i leaves the chain k+1 .. i. */
  lemma TrimWindow(k: nat, i: nat, j: int)
    requires k <= i && 1 <= j <= 4 && i < MAX_CARD_TYPE_NUM
    ensures 0 <= Window(k, i + 1, j) < TWO_TO_64
    ensures MinusFromEncodedCards(k, Window(k, i + 1, j), j) == Window(k + 1, i + 1, j)
  {
    WindowBounds(k, i + 1, j);
    ShlFieldMono(i + 1, 16);
    Powers();
    WindowFields(k, i + 1, j, k);
    MinusFromEncodedCardsFields(k, Window(k, i + 1, j), j);
    WindowLow(k, i + 1, j);
  }

  /** The k loop over the chain k .. i emits the subchains of the reference. */
  lemma {:induction false} KLoopEmits(i: int, j: int, k: int, kmax: int, out: seq<Chain>)
    requires START_CARD <= k && START_CARD <= i < MAX_CARD_TYPE_NUM && kmax <= i && 1 <= j <= 4
    ensures 0 <= Window(k, i + 1, j) < TWO_TO_64
    ensures KLoop(i, j, k, kmax, Window(k, i + 1, j), out).1 == out + SubchainsRef(i, j, k, kmax)
    decreases kmax - k
  {
    WindowBounds(k, i + 1, j);
    ShlFieldMono(i + 1, 16);
    Powers();
    if k <= kmax {
      TrimWindow(k, i, j);
      var c := [Chain(i, j, i - k + 1, Window(k, i + 1, j))];
      KLoopEmits(i, j, k + 1, kmax, out + c);
      Associative(out, c, SubchainsRef(i, j, k + 1, kmax));
    }
  }

  /** The k loop at rank i and multiplicity j emits the chains of the reference. */
  lemma RankSubchains(h: Histogram, i: int, j: int, st: LeadScan)
    requires |h| == MAX_CARD_TYPE_NUM && START_CARD <= i <= ACE && 1 <= j <= 4 && ScanShape(st, i + 1)
    requires RunsKept(h, st, i + 1)
    ensures KLoop(i, j, i - st.acc[j] + 1, i - SeqMinLength(j) + 1, st.a[j], st.out).1
            == st.out + SubchainsRef(i, j, i - RunLength(h, j, START_CARD, i + 1) + 1, i - SeqMinLength(j) + 1)
  {
    KLoopEmits(i, j, i - st.acc[j] + 1, i - SeqMinLength(j) + 1, st.out);
  }

  /** The third loop over j emits the chains of the reference ending at rank i. */
  lemma {:induction false} JLoopEmits(h: Histogram, i: int, j: int, st: LeadScan)
    requires |h| == MAX_CARD_TYPE_NUM && START_CARD <= i <= ACE && 1 <= j <= 5 && ScanShape(st, i + 1)
    requires RunsKept(h, st, i + 1)
    ensures JLoop(false, i, j, st).out == st.out + RankRef(h, i, j)
    decreases 5 - j
  {
    if j <= 4 {
      var next := LeadScan(st.acc, st.a, KLoop(i, j, i - st.acc[j] + 1, i - SeqMinLength(j) + 1, st.a[j], st.out).1);
      RunsKeptSame(h, st, next, i + 1);
      JLoopEmits(h, i, j + 1, next);
      JLoopEmitsStep(h, i, j, st, next);
    } else {
      assert st.out + [] == st.out;
    }
  }

  /** One turn of the third loop over j emits the reference's chains of j copies. */
  lemma JLoopEmitsStep(h: Histogram, i: int, j: int, st: LeadScan, next: LeadScan)
    requires |h| == MAX_CARD_TYPE_NUM && START_CARD <= i <= ACE && 1 <= j <= 4 && ScanShape(st, i + 1)
    requires RunsKept(h, st, i + 1)
    requires next == LeadScan(st.acc, st.a, KLoop(i, j, i - st.acc[j] + 1, i - SeqMinLength(j) + 1, st.a[j], st.out).1)
    requires JLoop(false, i, j + 1, next).out == next.out + RankRef(h, i, j + 1)
    ensures JLoop(false, i, j, st).out == st.out + RankRef(h, i, j)
  {
    JLoopTurn(i, j, st, i - st.acc[j] + 1, i - SeqMinLength(j) + 1, next.out);
    var sub := SubchainsRef(i, j, i - RunLength(h, j, START_CARD, i + 1) + 1, i - SeqMinLength(j) + 1);
    RankSubchains(h, i, j, st);
    Associative(st.out, sub, RankRef(h, i, j + 1));
  }

  /** One rank of the corrected scan emits the chains of the reference ending there. */
  lemma ScanStepEmits(h: Histogram, i: int, st: LeadScan)
    requires LegalCounts(h) && START_CARD <= i <= ACE && ScanShape(st, i) && RunsKept(h, st, i)
    ensures JLoop(false, i, 1, Extend(h, i, st)).out == st.out + RankRef(h, i, 1)
  {
    ExtendKeeps(h, i, st);
    JLoopEmits(h, i, 1, Extend(h, i, st));
  }

  /** Rank i of the corrected scan emits the chains of the reference ending there. */
  lemma ScanEmitsAt(h: Histogram, hi: int)
    requires LegalCounts(h) && START_CARD < hi <= ACE + 1
    ensures LeadScanTo(h, false, hi).out == LeadScanTo(h, false, hi - 1).out + RankRef(h, hi - 1, 1)
  {
    var st := LeadScanTo(h, false, hi - 1);
    LeadScanRuns(h, hi - 1);
    ScanStepEmits(h, hi - 1, st);
    assert LeadScanTo(h, false, hi) == JLoop(false, hi - 1, 1, Extend(h, hi - 1, st));
  }

  /** The corrected chain loops emit the reference. */
  lemma {:induction false} LeadChainsAreRef(h: Histogram, hi: int)
    requires LegalCounts(h) && START_CARD <= hi <= ACE + 1
    ensures LeadScanTo(h, false, hi).out == LeadChainRef(h, hi)
    decreases hi
  {
    if hi > START_CARD {
      LeadChainsAreRef(h, hi - 1);
      ScanEmitsAt(h, hi);
    }
  }

  /** A chain of j copies of each rank a .. b-1 that I can lead: a chain kind, ranks from
      NINE up to ACE, at least the minimum length, and every rank held j times. */
  ghost predicate ChainWindow(h: Histogram, j: int, a: int, b: int)
    requires |h| == MAX_CARD_TYPE_NUM
  {
    1 <= j <= 4 && START_CARD <= a && b <= ACE + 1 && b - a >= SeqMinLength(j) && Held(h, j, a, b)
  }

  /** x is such a chain. */
  ghost predicate LedChain(h: Histogram, x: EncodedCards, j: int, a: nat, b: nat)
    requires |h| == MAX_CARD_TYPE_NUM
  {
    ChainWindow(h, j, a, b) && x == Window(a, b, j)
  }

  /** The chain c is one I can lead, and its main part holds j copies of each of its ranks. */
  ghost predicate Leadable(h: Histogram, c: Chain)
    requires |h| == MAX_CARD_TYPE_NUM
  {
    && ChainWindow(h, c.j, c.i - c.len + 1, c.i + 1)
    && c.action == Window(c.i - c.len + 1, c.i + 1, c.j)
  }

  /** The k loop emits exactly the chains ending at i that start from k to kmax. */
  lemma {:induction false} SubchainsMembers(i: int, j: int, k: int, kmax: int, c: Chain)
    requires START_CARD <= k && kmax <= i < MAX_CARD_TYPE_NUM && 1 <= j <= 4
    ensures c in SubchainsRef(i, j, k, kmax) <==>
      c.i == i && c.j == j && k <= i - c.len + 1 <= kmax && c.action == Window(i - c.len + 1, i + 1, j)
    decreases kmax - k
  {
    if k <= kmax {
      SubchainsMembers(i, j, k + 1, kmax, c);
      TrimWindow(k, i, j);
      var w := Chain(i, j, i - k + 1, Window(k, i + 1, j));
      assert SubchainsRef(i, j, k, kmax) == [w] + SubchainsRef(i, j, k + 1, kmax);
    }
  }

  /** The starts the k loop at rank i takes are those of the chains of j copies ending at i. */
  lemma StartsAtRank(h: Histogram, i: int, j: int, a: int)
    requires LegalCounts(h) && START_CARD <= i <= ACE && 1 <= j <= 4
    ensures i - RunLength(h, j, START_CARD, i + 1) + 1 <= a <= i - SeqMinLength(j) + 1 <==> ChainWindow(h, j, a, i + 1)
  {
    if START_CARD <= a <= i {
      RunLengthAtLeast(h, j, START_CARD, i + 1, i + 1 - a);
    }
  }

  /** The k loop at rank i emits the chains of j copies ending at i. */
  lemma RankSubchainsMembers(h: Histogram, i: int, j: int, c: Chain)
    requires LegalCounts(h) && START_CARD <= i <= ACE && 1 <= j <= 4
    ensures c in SubchainsRef(i, j, i - RunLength(h, j, START_CARD, i + 1) + 1, i - SeqMinLength(j) + 1)
            <==> c.i == i && c.j == j && Leadable(h, c)
  {
    SubchainsMembers(i, j, i - RunLength(h, j, START_CARD, i + 1) + 1, i - SeqMinLength(j) + 1, c);
    StartsAtRank(h, i, j, i - c.len + 1);
  }

  /** The chains emitted at rank i, from multiplicity j on, are those ending at i. */
  lemma {:induction false} RankMembers(h: Histogram, i: int, j: int, c: Chain)
    requires LegalCounts(h) && START_CARD <= i <= ACE && 1 <= j <= 5
    ensures c in RankRef(h, i, j) <==> c.i == i && j <= c.j && Leadable(h, c)
    decreases 5 - j
  {
    if j <= 4 {
      RankMembers(h, i, j + 1, c);
      RankSubchainsMembers(h, i, j, c);
    }
  }

  /** The chains emitted after ranks up to hi-1 are those ending below hi. */
  lemma {:induction false} ChainRefMembers(h: Histogram, hi: int, c: Chain)
    requires LegalCounts(h) && START_CARD <= hi <= ACE + 1
    ensures c in LeadChainRef(h, hi) <==> c.i < hi && Leadable(h, c)
    decreases hi
  {
    if hi > START_CARD {
      ChainRefMembers(h, hi - 1, c);
      RankMembers(h, hi - 1, 1, c);
    }
  }

  /** The corrected loops emit exactly the chains I can lead. */
  lemma ChainsMembers(h: Histogram, c: Chain)
    requires LegalCounts(h)
    ensures c in LeadScanTo(h, false, ACE + 1).out <==> Leadable(h, c)
  {
    LeadChainsAreRef(h, ACE + 1);
    ChainRefMembers(h, ACE + 1, c);
  }

  /** The chain record of a chain I can lead. */
  lemma LedIsLeadable(h: Histogram, x: EncodedCards, j: int, a: nat, b: nat) returns (c: Chain)
    requires LegalCounts(h) && LedChain(h, x, j, a, b)
    ensures Leadable(h, c) && c.action == x
  {
    c := Chain(b - 1, j, b - a, x);
  }

  /** The window of a chain record I can lead. */
  lemma LeadableIsLed(h: Histogram, c: Chain)
    requires LegalCounts(h) && Leadable(h, c)
    ensures exists j, a: nat, b: nat :: LedChain(h, c.action, j, a, b)
  {
    assert LedChain(h, c.action, c.j, c.i - c.len + 1, c.i + 1);
  }

  /** In the corrected loops, every chain led without kickers is a chain I can lead, and
      every such chain is offered. */
  lemma LeadChainMembers(s: DoudizhuState, x: EncodedCards)
    requires LeadReady(s)
    ensures x in LeadChains(s, false) <==> exists j, a: nat, b: nat :: LedChain(s.myCardCounter, x, j, a, b)
  {
    var h := s.myCardCounter;
    var cs := LeadScanTo(h, false, ACE + 1).out;
    BareMembers(s, cs, x);
    if x in LeadChains(s, false) {
      var c :| c in cs && x == c.action;
      ChainsMembers(h, c);
      LeadableIsLed(h, c);
    }
    if j, a: nat, b: nat :| LedChain(h, x, j, a, b) {
      var c := LedIsLeadable(h, x, j, a, b);
      ChainsMembers(h, c);
    }
  }

  /** In the corrected loops, with kickers, every chain move is a move of a chain I can
      lead, and every move of such a chain is offered. */
  lemma LeadChainKickerMembers(s: DoudizhuState, x: EncodedCards)
    requires LeadReady(s)
    ensures x in LeadChains(s, true) <==> exists c :: Leadable(s.myCardCounter, c) && x in ChainMoves(s, true, c)
  {
    var h := s.myCardCounter;
    var cs := LeadScanTo(h, false, ACE + 1).out;
    MovesMembers(s, true, cs, x);
    if x in LeadChains(s, true) {
      var c :| c in cs && x in ChainMoves(s, true, c);
      ChainsMembers(h, c);
    }
    if c :| Leadable(h, c) && x in ChainMoves(s, true, c) {
      ChainsMembers(h, c);
    }
  }

  // ---------------------------------------------------------------------------
  // The in-place trim of a[j], as written
  // ---------------------------------------------------------------------------

  /** Three each of NINE, TEN and JACK and nothing else. */
  ghost predicate TripleRun(h: Histogram)
  {
    LegalCounts(h) && forall r :: 0 <= r < |h| ==> h[r] == if NINE <= r < NINE + 3 then 3 else 0
  }

  /** Taking n copies of rank ct out of a word holding at least that much does not wrap. */
  lemma MinusNoWrap(ct: nat, combo: EncodedCards, n: nat, r: int)
    requires 0 <= Shl4(n, ct) <= combo && r == combo - Shl4(n, ct)
    ensures MinusFromEncodedCards(ct, combo, n) == r
  {
  }

  /** Adding n copies of rank ct below the top of the word does not wrap. */
  lemma AddNoWrap(ct: nat, combo: EncodedCards, n: nat, r: int)
    requires 0 <= Shl4(n, ct) && r == combo + Shl4(n, ct) < TWO_TO_64
    ensures AddToEncodedCards(ct, combo, n) == r
  {
  }

  /** The fields of NINE, TEN and JACK. */
  lemma QuirkShifts()
    ensures Shl4(1, NINE) == 0x100_0000 && Shl4(2, NINE) == 0x200_0000 && Shl4(3, NINE) == 0x300_0000
    ensures Shl4(1, TEN) == 0x1000_0000 && Shl4(2, TEN) == 0x2000_0000 && Shl4(3, TEN) == 0x3000_0000
    ensures Shl4(1, TEN + 1) == 0x1_0000_0000 && Shl4(2, TEN + 1) == 0x2_0000_0000 && Shl4(3, TEN + 1) == 0x3_0000_0000
  {
    assert Shl4(1, 1) == 16 * Shl4(1, 0);
    assert Shl4(1, 2) == 16 * Shl4(1, 1);
    assert Shl4(1, 3) == 16 * Shl4(1, 2);
    assert Shl4(1, 4) == 16 * Shl4(1, 3);
    assert Shl4(1, 5) == 16 * Shl4(1, 4);
    assert Shl4(1, 6) == 16 * Shl4(1, 5);
    assert Shl4(1, 7) == 16 * Shl4(1, 6);
    assert Shl4(1, 8) == 16 * Shl4(1, 7);
    ShlMul(2, NINE);
    ShlMul(3, NINE);
    ShlMul(2, TEN);
    ShlMul(3, TEN);
    ShlMul(2, TEN + 1);
    ShlMul(3, TEN + 1);
  }

  /** A third loop over j that finds no run long enough emits nothing and changes nothing. */
  lemma {:induction false} JLoopIdle(asWritten: bool, i: int, j: int, st: LeadScan)
    requires START_CARD <= i < MAX_CARD_TYPE_NUM && 1 <= j <= 5 && ScanShape(st, i + 1)
    requires forall jj :: j <= jj <= 4 ==> st.acc[jj] < SeqMinLength(jj)
    ensures JLoop(asWritten, i, j, st) == st
    decreases 5 - j
  {
    if j <= 4 {
      JLoopIdle(asWritten, i, j + 1, st);
    }
  }

  /** The first two loops over j at a rank where I hold three: every run grows by the rank. */
  lemma {:induction false} ExtendThree(h: Histogram, i: int, st: LeadScan, w1: EncodedCards, w2: EncodedCards, w3: EncodedCards)
    requires LegalCounts(h) && START_CARD <= i < MAX_CARD_TYPE_NUM && h[i] == 3 && ScanShape(st, i)
    requires st.acc[0] == 0 && st.a[0] == 0
    requires w1 == st.a[1] + Shl4(1, i) && w2 == st.a[2] + Shl4(2, i) && w3 == st.a[3] + Shl4(3, i)
    requires st.a[1] <= w1 && st.a[2] <= w2 && st.a[3] <= w3
    ensures Extend(h, i, st)
      == LeadScan([0, st.acc[1] + 1, st.acc[2] + 1, st.acc[3] + 1, 0], [0, w1, w2, w3, 0], st.out)
  {
    AddNoWrap(i, st.a[1], 1, w1);
    AddNoWrap(i, st.a[2], 2, w2);
    AddNoWrap(i, st.a[3], 3, w3);
    var e := Extend(h, i, st);
    assert e.acc == [0, st.acc[1] + 1, st.acc[2] + 1, st.acc[3] + 1, 0];
    assert e.a == [0, w1, w2, w3, 0];
  }

  /** A multiplicity whose run is too short: the third loop over j moves on. */
  lemma JLoopSkip(asWritten: bool, i: int, j: int, st: LeadScan)
    requires START_CARD <= i < MAX_CARD_TYPE_NUM && 1 <= j <= 4 && ScanShape(st, i + 1)
    requires st.acc[j] < SeqMinLength(j)
    ensures JLoop(asWritten, i, j, st) == JLoop(asWritten, i, j + 1, st)
  {
    assert st.a[j := st.a[j]] == st.a;
  }

  /** A multiplicity whose k loop, as written, leaves the word w and the chains out. */
  lemma JLoopTrim(i: int, j: int, st: LeadScan, w: EncodedCards, out: seq<Chain>)
    requires START_CARD <= i < MAX_CARD_TYPE_NUM && 1 <= j <= 4 && ScanShape(st, i + 1)
    requires KLoop(i, j, i - st.acc[j] + 1, i - SeqMinLength(j) + 1, st.a[j], st.out) == (w, out)
    ensures JLoop(true, i, j, st) == JLoop(true, i, j + 1, LeadScan(st.acc, st.a[j := w], out))
  {
  }

  /** One turn of the k loop: the word is emitted and rank k taken out of it. */
  lemma KLoopTurn(i: int, j: int, k: int, kmax: int, action: EncodedCards, out: seq<Chain>)
    requires START_CARD <= k <= kmax <= i && 1 <= j <= 4
    ensures KLoop(i, j, k, kmax, action, out)
            == KLoop(i, j, k + 1, kmax, MinusFromEncodedCards(k, action, j), out + [Chain(i, j, i - k + 1, action)])
  {
  }

  /** The chains of the run, as written, in the order they are emitted. */
  const QuirkChain1: Chain := Chain(TEN, TRIPLET, 2, 0x3300_0000)
  const QuirkChain2: Chain := Chain(TEN + 1, PAIR, 3, 0x2_2200_0000)
  const QuirkChain3: Chain := Chain(TEN + 1, TRIPLET, 3, 0x3_3000_0000)
  const QuirkChain4: Chain := Chain(TEN + 1, TRIPLET, 2, 0x3_2D00_0000)

  /** At NINE, the first two loops over j start every run. */
  lemma {:induction false} TrimQuirkNineRuns(h: Histogram, st: LeadScan)
    requires TripleRun(h) && ScanShape(st, NINE)
    requires st == LeadScan([0, 0, 0, 0, 0], [0, 0, 0, 0, 0], [])
    ensures Extend(h, NINE, st) == LeadScan([0, 1, 1, 1, 0], [0, 0x100_0000, 0x200_0000, 0x300_0000, 0], [])
  {
    assert Shl4(1, NINE) == 0x100_0000 && Shl4(2, NINE) == 0x200_0000 && Shl4(3, NINE) == 0x300_0000 by { QuirkShifts(); }
    ExtendThree(h, NINE, st, 0x100_0000, 0x200_0000, 0x300_0000);
  }

  /** At NINE, every run is too short for the third loop over j. */
  lemma {:induction false} TrimQuirkNineChains(e: LeadScan)
    requires e == LeadScan([0, 1, 1, 1, 0], [0, 0x100_0000, 0x200_0000, 0x300_0000, 0], [])
    ensures JLoop(true, NINE, 1, e) == e
  {
    JLoopIdle(true, NINE, 1, e);
  }

  lemma {:induction false} TrimQuirkNine(h: Histogram)
    requires TripleRun(h)
    ensures LeadScanTo(h, true, NINE + 1) == LeadScan([0, 1, 1, 1, 0], [0, 0x100_0000, 0x200_0000, 0x300_0000, 0], [])
  {
    TrimQuirkNineRuns(h, LeadScanTo(h, true, NINE));
    TrimQuirkNineChains(Extend(h, NINE, LeadScanTo(h, true, NINE)));
  }

  /** At TEN, the first two loops over j extend every run by TEN. */
  lemma {:induction false} TrimQuirkTenRuns(h: Histogram, st: LeadScan)
    requires TripleRun(h) && ScanShape(st, TEN)
    requires st == LeadScan([0, 1, 1, 1, 0], [0, 0x100_0000, 0x200_0000, 0x300_0000, 0], [])
    ensures Extend(h, TEN, st) == LeadScan([0, 2, 2, 2, 0], [0, 0x1100_0000, 0x2200_0000, 0x3300_0000, 0], [])
  {
    assert Shl4(1, TEN) == 0x1000_0000 && Shl4(2, TEN) == 0x2000_0000 && Shl4(3, TEN) == 0x3000_0000 by { QuirkShifts(); }
    ExtendThree(h, TEN, st, 0x1100_0000, 0x2200_0000, 0x3300_0000);
  }

  /** At TEN, the k loop for triplets emits NINE .. TEN and takes the NINEs out. */
  lemma TrimQuirkTenTriplets()
    ensures KLoop(TEN, 3, NINE, NINE, 0x3300_0000, []) == (0x3000_0000, [QuirkChain1])
  {
    assert Shl4(3, NINE) == 0x300_0000 by { QuirkShifts(); }
    KLoopTurn(TEN, 3, NINE, NINE, 0x3300_0000, []);
    MinusNoWrap(NINE, 0x3300_0000, 3, 0x3000_0000);
    assert [] + [QuirkChain1] == [QuirkChain1];
  }

  /** At TEN, the third loop over j emits the triplets NINE .. TEN and trims a[3]. */
  lemma {:induction false} TrimQuirkTenChains(e: LeadScan)
    requires e == LeadScan([0, 2, 2, 2, 0], [0, 0x1100_0000, 0x2200_0000, 0x3300_0000, 0], [])
    ensures JLoop(true, TEN, 1, e) == LeadScan([0, 2, 2, 2, 0], [0, 0x1100_0000, 0x2200_0000, 0x3000_0000, 0], [QuirkChain1])
  {
    JLoopSkip(true, TEN, 1, e);
    JLoopSkip(true, TEN, 2, e);
    TrimQuirkTenTriplets();
    JLoopTrim(TEN, 3, e, 0x3000_0000, [QuirkChain1]);
    JLoopIdle(true, TEN, 4, LeadScan(e.acc, e.a[3 := 0x3000_0000], [QuirkChain1]));
  }

  lemma {:induction false} TrimQuirkTen(h: Histogram)
    requires TripleRun(h)
    ensures LeadScanTo(h, true, TEN + 1) == LeadScan([0, 2, 2, 2, 0], [0, 0x1100_0000, 0x2200_0000, 0x3000_0000, 0], [QuirkChain1])
  {
    TrimQuirkNine(h);
    TrimQuirkTenRuns(h, LeadScanTo(h, true, TEN));
    TrimQuirkTenChains(Extend(h, TEN, LeadScanTo(h, true, TEN)));
  }

  /** At JACK, the k loop for pairs emits NINE .. JACK and takes the NINEs out. */
  lemma TrimQuirkJackPairChain()
    ensures KLoop(TEN + 1, 2, NINE, NINE, 0x2_2200_0000, [QuirkChain1]) == (0x2_2000_0000, [QuirkChain1, QuirkChain2])
  {
    assert Shl4(2, NINE) == 0x200_0000 by { QuirkShifts(); }
    KLoopTurn(TEN + 1, 2, NINE, NINE, 0x2_2200_0000, [QuirkChain1]);
    MinusNoWrap(NINE, 0x2_2200_0000, 2, 0x2_2000_0000);
    assert [QuirkChain1] + [QuirkChain2] == [QuirkChain1, QuirkChain2];
  }

  /** At JACK, the pairs: the chain NINE .. JACK is emitted and a[2] loses its NINEs. */
  lemma {:induction false} TrimQuirkJackPairs(e: LeadScan)
    requires ScanShape(e, TEN + 2)
    requires e == LeadScan([0, 3, 3, 3, 0], [0, 0x1_1100_0000, 0x2_2200_0000, 0x3_3000_0000, 0], [QuirkChain1])
    ensures JLoop(true, TEN + 1, 1, e)
      == JLoop(true, TEN + 1, 3, LeadScan(e.acc, e.a[2 := 0x2_2000_0000], [QuirkChain1, QuirkChain2]))
  {
    JLoopSkip(true, TEN + 1, 1, e);
    TrimQuirkJackPairChain();
    JLoopTrim(TEN + 1, 2, e, 0x2_2000_0000, [QuirkChain1, QuirkChain2]);
  }

  /** At JACK, the triplets: the trimmed run TEN .. JACK is emitted and then, trimmed again, a
      word holding thirteen NINEs. */
  lemma {:induction false} TrimQuirkJackTriplets(e: LeadScan)
    requires ScanShape(e, TEN + 2)
    requires e == LeadScan([0, 3, 3, 3, 0], [0, 0x1_1100_0000, 0x2_2000_0000, 0x3_3000_0000, 0], [QuirkChain1, QuirkChain2])
    ensures JLoop(true, TEN + 1, 3, e)
      == LeadScan(e.acc, e.a[3 := 0x2_FD00_0000], [QuirkChain1, QuirkChain2, QuirkChain3, QuirkChain4])
  {
    assert Shl4(3, NINE) == 0x300_0000 && Shl4(3, TEN) == 0x3000_0000 by { QuirkShifts(); }
    var i := TEN + 1;
    assert e.acc[3] == 3 && e.a[3] == 0x3_3000_0000;
    KLoopTurn(i, 3, NINE, TEN, 0x3_3000_0000, [QuirkChain1, QuirkChain2]);
    MinusNoWrap(NINE, 0x3_3000_0000, 3, 0x3_2D00_0000);
    assert [QuirkChain1, QuirkChain2] + [QuirkChain3] == [QuirkChain1, QuirkChain2, QuirkChain3];
    KLoopTurn(i, 3, TEN, TEN, 0x3_2D00_0000, [QuirkChain1, QuirkChain2, QuirkChain3]);
    MinusNoWrap(TEN, 0x3_2D00_0000, 3, 0x2_FD00_0000);
    assert [QuirkChain1, QuirkChain2, QuirkChain3] + [QuirkChain4] == [QuirkChain1, QuirkChain2, QuirkChain3, QuirkChain4];
    assert KLoop(i, 3, TEN + 1, TEN, 0x2_FD00_0000, [QuirkChain1, QuirkChain2, QuirkChain3, QuirkChain4])
        == (0x2_FD00_0000, [QuirkChain1, QuirkChain2, QuirkChain3, QuirkChain4]);
    JLoopTrim(i, 3, e, 0x2_FD00_0000, [QuirkChain1, QuirkChain2, QuirkChain3, QuirkChain4]);
    JLoopIdle(true, i, 4, LeadScan(e.acc, e.a[3 := 0x2_FD00_0000], [QuirkChain1, QuirkChain2, QuirkChain3, QuirkChain4]));
  }

  /** At JACK, the first two loops over j extend every run by JACK. */
  lemma {:induction false} TrimQuirkJackRuns(h: Histogram, st: LeadScan)
    requires TripleRun(h) && ScanShape(st, TEN + 1)
    requires st == LeadScan([0, 2, 2, 2, 0], [0, 0x1100_0000, 0x2200_0000, 0x3000_0000, 0], [QuirkChain1])
    ensures Extend(h, TEN + 1, st)
      == LeadScan([0, 3, 3, 3, 0], [0, 0x1_1100_0000, 0x2_2200_0000, 0x3_3000_0000, 0], [QuirkChain1])
  {
    assert Shl4(1, TEN + 1) == 0x1_0000_0000 && Shl4(2, TEN + 1) == 0x2_0000_0000 && Shl4(3, TEN + 1) == 0x3_0000_0000 by { QuirkShifts(); }
    ExtendThree(h, TEN + 1, st, 0x1_1100_0000, 0x2_2200_0000, 0x3_3000_0000);
  }

  /** At JACK, the third loop over j: pairs, then triplets. */
  lemma {:induction false} TrimQuirkJackChains(e: LeadScan)
    requires e == LeadScan([0, 3, 3, 3, 0], [0, 0x1_1100_0000, 0x2_2200_0000, 0x3_3000_0000, 0], [QuirkChain1])
    ensures JLoop(true, TEN + 1, 1, e).out == [QuirkChain1, QuirkChain2, QuirkChain3, QuirkChain4]
  {
    TrimQuirkJackPairs(e);
    TrimQuirkJackTriplets(LeadScan(e.acc, e.a[2 := 0x2_2000_0000], [QuirkChain1, QuirkChain2]));
  }

  lemma {:induction false} TrimQuirkJack(h: Histogram)
    requires TripleRun(h)
    ensures LeadScanTo(h, true, TEN + 2).out == [QuirkChain1, QuirkChain2, QuirkChain3, QuirkChain4]
  {
    TrimQuirkTen(h);
    TrimQuirkJackRuns(h, LeadScanTo(h, true, TEN + 1));
    TrimQuirkJackChains(Extend(h, TEN + 1, LeadScanTo(h, true, TEN + 1)));
  }

  /** A rank I hold none of breaks every run, so the loops emit nothing at it. */
  lemma {:induction false} ScanIdleAt(h: Histogram, asWritten: bool, hi: int)
    requires LegalCounts(h) && START_CARD < hi <= ACE + 1 && h[hi - 1] == 0
    ensures LeadScanTo(h, asWritten, hi).out == LeadScanTo(h, asWritten, hi - 1).out
  {
    JLoopIdle(asWritten, hi - 1, 1, Extend(h, hi - 1, LeadScanTo(h, asWritten, hi - 1)));
  }

  /** Holding nothing from QUEEN to ACE, the loops emit nothing there. */
  lemma ScanIdleTail(h: Histogram, asWritten: bool)
    requires LegalCounts(h) && h[TEN + 2] == 0 && h[TEN + 3] == 0 && h[ACE] == 0
    ensures LeadScanTo(h, asWritten, ACE + 1).out == LeadScanTo(h, asWritten, TEN + 2).out
  {
    ScanIdleAt(h, asWritten, TEN + 3);
    ScanIdleAt(h, asWritten, TEN + 4);
    ScanIdleAt(h, asWritten, ACE + 1);
  }

  /** The last word emitted holds thirteen NINEs. */
  lemma ThirteenNines()
    ensures NumCardOfEncoded(NINE, 0x3_2D00_0000) == 13
  {
    assert Shr4(0x3_2D00_0000, 6) == Shr4(0x32D0_0000, 5);
    assert Shr4(0x32D0_0000, 5) == Shr4(0x32D_0000, 4);
    assert Shr4(0x32D_0000, 4) == Shr4(0x32_D000, 3);
    assert Shr4(0x32_D000, 3) == Shr4(0x3_2D00, 2);
    assert Shr4(0x3_2D00, 2) == Shr4(0x32D0, 1);
    assert Shr4(0x32D0, 1) == Shr4(0x32D, 0) == 0x32D;
    assert 0x32D % 16 == 13;
  }

  /** The chain of triplets NINE .. JACK. */
  lemma NineToJack()
    ensures Window(NINE, NINE + 3, TRIPLET) == 0x3_3300_0000
  {
    QuirkShifts();
    assert Window(NINE, NINE, TRIPLET) == 0;
    assert Window(NINE, NINE + 1, TRIPLET) == 0x300_0000;
    assert Window(NINE, NINE + 2, TRIPLET) == 0x3300_0000;
  }

  /** The corrected loops offer the chain of triplets NINE .. JACK. */
  lemma {:induction false} NineToJackOffered(s: DoudizhuState)
    requires IsPass(s.lastAction) && TripleRun(s.myCardCounter)
    ensures LeadReady(s)
    ensures Window(NINE, NINE + 3, TRIPLET) in LeadChains(s, false)
  {
    var h := s.myCardCounter;
    NineToJack();
    LeadChainMembers(s, Window(NINE, NINE + 3, TRIPLET));
    assert Held(h, TRIPLET, NINE, NINE + 3);
    assert LedChain(h, Window(NINE, NINE + 3, TRIPLET), TRIPLET, NINE, NINE + 3);
  }

  /** The moves of the four chains emitted as written, without kickers. */
  lemma {:induction false} QuirkMoves(s: DoudizhuState, cs: seq<Chain>)
    requires LeadReady(s) && cs == [QuirkChain1, QuirkChain2, QuirkChain3, QuirkChain4]
    ensures Moves(s, false, cs) == [0x3300_0000, 0x2_2200_0000, 0x3_3000_0000, 0x3_2D00_0000]
  {
    MovesBare(s, cs);
  }

  /** The chain moves, as written, for three each of NINE, TEN and JACK. */
  lemma {:induction false} TrimQuirkOut(s: DoudizhuState)
    requires IsPass(s.lastAction) && TripleRun(s.myCardCounter)
    ensures LeadReady(s)
    ensures LeadChainsAsWritten(s, false) == [0x3300_0000, 0x2_2200_0000, 0x3_3000_0000, 0x3_2D00_0000]
  {
    var h := s.myCardCounter;
    TrimQuirkJack(h);
    ScanIdleTail(h, true);
    QuirkMoves(s, LeadScanTo(h, true, ACE + 1).out);
  }

  /** As written, the k loop trims a[j] itself, so the run it keeps loses its low ranks: with
      three each of NINE, TEN and JACK and nothing else, the chain of all three triplets is
      never offered and a word holding thirteen NINEs is offered instead. The corrected loops
      offer that chain. */
  lemma {:induction false} TrimQuirk(s: DoudizhuState)
    requires IsPass(s.lastAction) && TripleRun(s.myCardCounter)
    ensures LeadReady(s)
    ensures LeadChainsAsWritten(s, false) == [0x3300_0000, 0x2_2200_0000, 0x3_3000_0000, 0x3_2D00_0000]
    ensures NumCardOfEncoded(NINE, 0x3_2D00_0000) == 13 > s.myCardCounter[NINE]
    ensures Window(NINE, NINE + 3, TRIPLET) == 0x3_3300_0000
    ensures 0x3_3300_0000 in LeadChains(s, false)
  {
    TrimQuirkOut(s);
    ThirteenNines();
    NineToJack();
    NineToJackOffered(s);
  }

  // ---------------------------------------------------------------------------
  // Where the loops as written agree with the corrected ones
  // ---------------------------------------------------------------------------

  /** Every run of ranks I hold j of, among NINE .. ACE, is at most the shortest chain of j
      copies long. */
  ghost predicate ShortRuns(h: Histogram)
    requires |h| == MAX_CARD_TYPE_NUM
  {
    forall j, b :: 1 <= j <= 4 && START_CARD < b <= ACE + 1 ==> RunLength(h, j, START_CARD, b) <= SeqMinLength(j)
  }

  /** The in-place trim changes none of the chains the third loop over j emits, since each
      multiplicity's k loop reads its own a[j] before trimming it. */
  lemma {:induction false} JLoopAgree(i: int, j: int, x: LeadScan, y: LeadScan)
    requires START_CARD <= i < MAX_CARD_TYPE_NUM && 1 <= j <= 5 && ScanShape(x, i + 1) && ScanShape(y, i + 1)
    requires x.acc == y.acc && x.out == y.out && forall m :: j <= m <= 4 ==> x.a[m] == y.a[m]
    ensures JLoop(true, i, j, x).out == JLoop(false, i, j, y).out
    decreases 5 - j
  {
    if j <= 4 {
      var r := KLoop(i, j, i - x.acc[j] + 1, i - SeqMinLength(j) + 1, x.a[j], x.out);
      var x', y' := LeadScan(x.acc, x.a[j := r.0], r.1), LeadScan(y.acc, y.a, r.1);
      JLoopAgree(i, j + 1, x', y');
      JLoopAgreeStep(i, j, x, y, r.0, r.1);
    }
  }

  /** One turn of the third loop over j in both scans. */
  lemma JLoopAgreeStep(i: int, j: int, x: LeadScan, y: LeadScan, w: EncodedCards, out: seq<Chain>)
    requires START_CARD <= i < MAX_CARD_TYPE_NUM && 1 <= j <= 4 && ScanShape(x, i + 1) && ScanShape(y, i + 1)
    requires x.acc == y.acc && x.out == y.out && x.a[j] == y.a[j]
    requires (w, out) == KLoop(i, j, i - x.acc[j] + 1, i - SeqMinLength(j) + 1, x.a[j], x.out)
    requires JLoop(true, i, j + 1, LeadScan(x.acc, x.a[j := w], out)).out == JLoop(false, i, j + 1, LeadScan(y.acc, y.a, out)).out
    ensures JLoop(true, i, j, x).out == JLoop(false, i, j, y).out
  {
    JLoopTrim(i, j, x, w, out);
  }

  /** The third loop over j, as written, leaves a[m] trimmed only where its run reached the
      minimum length. */
  lemma {:induction false} JLoopLeaves(i: int, j: int, x: LeadScan, m: int)
    requires START_CARD <= i < MAX_CARD_TYPE_NUM && 1 <= j <= 5 && ScanShape(x, i + 1) && 0 <= m < 5
    ensures JLoop(true, i, j, x).a[m] == x.a[m] || (j <= m <= 4 && x.acc[m] >= SeqMinLength(m))
    decreases 5 - j
  {
    if j <= 4 {
      var r := KLoop(i, j, i - x.acc[j] + 1, i - SeqMinLength(j) + 1, x.a[j], x.out);
      var x' := LeadScan(x.acc, x.a[j := r.0], r.1);
      JLoopTrim(i, j, x, r.0, r.1);
      JLoopLeaves(i, j + 1, x', m);
      KLoopIdle(i, j, x.acc[j], x.a[j], x.out);
    }
  }

  /** The scan as written, w, and the corrected scan, c, keep the same lengths and have
      emitted the same chains; they differ only in runs left trimmed at the minimum length. */
  ghost predicate TrimmedOnly(w: LeadScan, c: LeadScan)
  {
    && |w.acc| == 5 && |w.a| == 5 && |c.a| == 5 && w.acc == c.acc && w.out == c.out
    && forall m :: 0 <= m < 5 ==> w.a[m] == c.a[m] || (1 <= m <= 4 && c.acc[m] >= SeqMinLength(m))
  }

  /** A run shorter than the minimum length: the k loop does not run. */
  lemma KLoopIdle(i: int, j: int, acc: int, action: EncodedCards, out: seq<Chain>)
    requires 1 <= j <= 4 && START_CARD <= i - acc + 1 && i - SeqMinLength(j) + 1 <= i
    ensures acc < SeqMinLength(j) ==> KLoop(i, j, i - acc + 1, i - SeqMinLength(j) + 1, action, out) == (action, out)
  {
  }

  /** With short runs, the first two loops over j undo any difference the trim left: a
      trimmed run either breaks, or would grow past the minimum length. */
  lemma ExtendAgree(h: Histogram, i: int, w: LeadScan, c: LeadScan)
    requires LegalCounts(h) && ShortRuns(h) && START_CARD <= i <= ACE && ScanShape(w, i) && ScanShape(c, i)
    requires RunsKept(h, c, i) && TrimmedOnly(w, c)
    ensures Extend(h, i, w) == Extend(h, i, c)
  {
    var ew, ec := Extend(h, i, w), Extend(h, i, c);
    forall m | 0 <= m < 5
      ensures ew.a[m] == ec.a[m]
    {
      if 1 <= m <= h[i] {
        assert RunLength(h, m, START_CARD, i + 1) == c.acc[m] + 1;
      }
    }
  }

  /** One rank of both scans keeps them agreeing. */
  lemma ScanAgreeStep(h: Histogram, i: int, w: LeadScan, c: LeadScan)
    requires LegalCounts(h) && ShortRuns(h) && START_CARD <= i <= ACE && ScanShape(w, i) && ScanShape(c, i)
    requires RunsKept(h, c, i) && TrimmedOnly(w, c)
    ensures TrimmedOnly(JLoop(true, i, 1, Extend(h, i, w)), JLoop(false, i, 1, Extend(h, i, c)))
  {
    ExtendAgree(h, i, w, c);
    var e := Extend(h, i, c);
    JLoopAgree(i, 1, e, e);
    forall m | 0 <= m < 5
      ensures JLoop(true, i, 1, e).a[m] == e.a[m] || (1 <= m <= 4 && e.acc[m] >= SeqMinLength(m))
    {
      JLoopLeaves(i, 1, e, m);
    }
    JLoopKeeps(i, 1, e);
  }

  /** With short runs, the scan as written and the corrected scan agree after ranks
      START_CARD .. hi-1. */
  lemma {:induction false} ScanAgree(h: Histogram, hi: int)
    requires LegalCounts(h) && ShortRuns(h) && START_CARD <= hi <= ACE + 1
    ensures TrimmedOnly(LeadScanTo(h, true, hi), LeadScanTo(h, false, hi))
    decreases hi
  {
    if hi > START_CARD {
      ScanAgree(h, hi - 1);
      LeadScanRuns(h, hi - 1);
      ScanAgreeStep(h, hi - 1, LeadScanTo(h, true, hi - 1), LeadScanTo(h, false, hi - 1));
    }
  }

  /** With short runs, the chain moves as written are those of the corrected loops. */
  lemma AsWrittenAgrees(s: DoudizhuState, gen: bool)
    requires LeadReady(s) && ShortRuns(s.myCardCounter)
    ensures LeadChainsAsWritten(s, gen) == LeadChains(s, gen)
  {
    ScanAgree(s.myCardCounter, ACE + 1);
  }

  /** With short runs, the chains led as written without kickers are exactly the chains I
      can lead. */
  lemma AsWrittenChainMembers(s: DoudizhuState, x: EncodedCards)
    requires LeadReady(s) && ShortRuns(s.myCardCounter)
    ensures x in LeadChainsAsWritten(s, false) <==> exists j, a: nat, b: nat :: LedChain(s.myCardCounter, x, j, a, b)
  {
    AsWrittenAgrees(s, false);
    LeadChainMembers(s, x);
  }
}

/** Packed rank histograms: a hand is a 64-bit word holding one 4-bit count per rank
    (rank r occupies bits 4r .. 4r+3), together with the card-id helpers built on it. */
module Encoding {

  // ---------------------------------------------------------------------------
  // Constants of the game
  // ---------------------------------------------------------------------------

  /** Number of card ids (0..53) and of ranks. */
  const MAX_CARD_NUM: int := 54
  const MAX_CARD_TYPE_NUM: int := 15

  /** Ranks, ordered by strength. SMALL_JOKER and BIG_JOKER are the source's `Joker` and `JOKER`. */
  const THREE: int := 0
  const NINE: int := 6
  const TEN: int := 7
  const ACE: int := 11
  const TWO: int := 12
  const SMALL_JOKER: int := 13
  const BIG_JOKER: int := 14

  /** The smallest rank in play: the mini variant starts at NINE. */
  const START_CARD: int := NINE

  const TWO_TO_60: int := 0x1000_0000_0000_0000
  const TWO_TO_64: int := 0x1_0000_0000_0000_0000

  /** An `unsigned long long`. */
  type EncodedCards = x: int | 0 <= x < TWO_TO_64 witness 0

  const NO_CARDS: EncodedCards := 0
  /** Four copies of NINE..TWO and one of each joker. */
  const FULL_CARDS: EncodedCards := 0x114444444000000

  /** A rank histogram, indexed by rank (the source's `vector<int>(MAX_CARD_TYPE_NUM)`). */
  type Histogram = seq<int>

  // ---------------------------------------------------------------------------
  // Shifts by whole 4-bit fields
  // ---------------------------------------------------------------------------

  /** `n << (k << 2)` before truncation to 64 bits. */
  function Shl4(n: int, k: nat): int
  {
    if k == 0 then n else 16 * Shl4(n, k - 1)
  }

  /** `x >> (k << 2)`: k successive divisions by 16. */
  function Shr4(x: int, k: nat): int
    decreases k
  {
    if k == 0 then x else Shr4(x / 16, k - 1)
  }

  // ---------------------------------------------------------------------------
  // The field primitives
  // ---------------------------------------------------------------------------

  /** numCardOfEncoded: `(combo >> (ct << 2)) & 0xf`. */
  function NumCardOfEncoded(ct: nat, combo: int): (n: int)
    ensures 0 <= n < 16
  {
    Shr4(combo, ct) % 16
  }

  /** addToEncodedCards: `combo + (n << (ct << 2))` in 64-bit unsigned arithmetic. */
  function AddToEncodedCards(ct: nat, combo: EncodedCards, n: nat): EncodedCards
  {
    (combo + Shl4(n, ct)) % TWO_TO_64
  }

  /** minusFromEncodedCards: `combo - (n << (ct << 2))` in 64-bit unsigned arithmetic
      (a borrow wraps around, as it does in the source). */
  function MinusFromEncodedCards(ct: nat, combo: EncodedCards, n: nat): EncodedCards
  {
    (combo - Shl4(n, ct)) % TWO_TO_64
  }

  /** `x + y` and `x - y` on `unsigned long long`. */
  function Add64(x: EncodedCards, y: EncodedCards): EncodedCards
  {
    (x + y) % TWO_TO_64
  }

  function Sub64(x: EncodedCards, y: EncodedCards): EncodedCards
  {
    (x - y) % TWO_TO_64
  }

  // ---------------------------------------------------------------------------
  // Facts about the shifts
  // ---------------------------------------------------------------------------

  lemma {:induction false} ShlAdd(a: int, b: int, k: nat)
    ensures Shl4(a + b, k) == Shl4(a, k) + Shl4(b, k)
    ensures Shl4(a - b, k) == Shl4(a, k) - Shl4(b, k)
  {
    if k > 0 {
      ShlAdd(a, b, k - 1);
    }
  }

  lemma {:induction false} ShlZero(k: nat)
    ensures Shl4(0, k) == 0
  {
    if k > 0 {
      ShlZero(k - 1);
    }
  }

  lemma {:induction false} ShlMono(a: int, b: int, k: nat)
    requires a <= b
    ensures Shl4(a, k) <= Shl4(b, k)
  {
    if k > 0 {
      ShlMono(a, b, k - 1);
    }
  }

  /** Shifting 16a by k fields is shifting a by k+1 fields. */
  lemma {:induction false} ShlScale(a: int, k: nat)
    ensures Shl4(16 * a, k) == Shl4(a, k + 1)
  {
    if k > 0 {
      ShlScale(a, k - 1);
    }
  }

  lemma {:induction false} ShlMul(q: int, k: nat)
    ensures Shl4(q, k) == q * Shl4(1, k)
  {
    if k > 0 {
      ShlMul(q, k - 1);
      assert q * (16 * Shl4(1, k - 1)) == 16 * (q * Shl4(1, k - 1));
    }
  }

  /** 16^k for the field positions that occur. */
  lemma PowerTable()
    ensures Shl4(1, 6) == 0x1000000
    ensures Shl4(1, 7) == 0x10000000
    ensures Shl4(1, 8) == 0x100000000
    ensures Shl4(1, 9) == 0x1000000000
    ensures Shl4(1, 10) == 0x10000000000
    ensures Shl4(1, 11) == 0x100000000000
    ensures Shl4(1, 12) == 0x1000000000000
    ensures Shl4(1, 13) == 0x10000000000000
    ensures Shl4(1, 14) == 0x100000000000000
    ensures Shl4(1, 15) == TWO_TO_60
    ensures Shl4(1, 16) == TWO_TO_64
  {
    assert Shl4(1, 1) == 0x10;
    assert Shl4(1, 2) == 0x100;
    assert Shl4(1, 3) == 0x1000;
    assert Shl4(1, 4) == 0x10000;
    assert Shl4(1, 5) == 0x100000;
    assert Shl4(1, 6) == 0x1000000;
    assert Shl4(1, 7) == 0x10000000;
    assert Shl4(1, 8) == 0x100000000;
    assert Shl4(1, 9) == 0x1000000000;
    assert Shl4(1, 10) == 0x10000000000;
    assert Shl4(1, 11) == 0x100000000000;
    assert Shl4(1, 12) == 0x1000000000000;
    assert Shl4(1, 13) == 0x10000000000000;
    assert Shl4(1, 14) == 0x100000000000000;
    assert Shl4(1, 15) == TWO_TO_60;
  }

  lemma Powers()
    ensures Shl4(1, 15) == TWO_TO_60
    ensures Shl4(1, 16) == TWO_TO_64
  {
    PowerTable();
  }

  lemma {:induction false} ShrZero(k: nat)
    ensures Shr4(0, k) == 0
  {
    if k > 0 {
      ShrZero(k - 1);
    }
  }

  /** Shifting right by a+b fields is shifting by a and then by b. */
  lemma {:induction false} ShrCompose(x: int, a: nat, b: nat)
    ensures Shr4(x, a + b) == Shr4(Shr4(x, a), b)
    decreases a
  {
    if a > 0 {
      ShrCompose(x / 16, a - 1, b);
    }
  }

  /** Adding n << 4k and then shifting right by s <= k fields adds n << 4(k-s). */
  lemma {:induction false} ShrAddShl(x: int, n: int, k: nat, s: nat)
    requires s <= k
    ensures Shr4(x + Shl4(n, k), s) == Shr4(x, s) + Shl4(n, k - s)
    decreases s
  {
    if s > 0 {
      assert (x + 16 * Shl4(n, k - 1)) / 16 == x / 16 + Shl4(n, k - 1);
      ShrAddShl(x / 16, n, k - 1, s - 1);
    }
  }

  /** Changing the lowest field without carry or borrow does not change what lies above it. */
  lemma ShrLowChange(a: int, d: int, j: nat)
    requires 0 <= a % 16 + d <= 15
    requires j >= 1
    ensures Shr4(a + d, j) == Shr4(a, j)
  {
    assert (a + d) / 16 == a / 16;
    assert Shr4(a + d, j) == Shr4((a + d) / 16, j - 1);
  }

  lemma {:induction false} ShrSign(x: int, k: nat)
    ensures x >= 0 <==> Shr4(x, k) >= 0
    decreases k
  {
    if k > 0 {
      ShrSign(x / 16, k - 1);
    }
  }

  /** A non-negative value has no field at or above k exactly when it is below 16^k. */
  lemma {:induction false} ShrBound(x: int, k: nat)
    requires x >= 0
    ensures Shr4(x, k) == 0 <==> x < Shl4(1, k)
  {
    if k > 0 {
      ShrBound(x / 16, k - 1);
    }
  }

  /** x is its first k fields plus what lies above them. */
  lemma {:induction false} LowFieldsSum(x: int, k: nat)
    requires k <= 16
    ensures x == PackFrom(Decode16(x), 0, k) + Shl4(Shr4(x, k), k)
  {
    if k > 0 {
      LowFieldsSum(x, k - 1);
      var q := Shr4(x, k - 1);
      ShrCompose(x, k - 1, 1);
      assert q == 16 * Shr4(x, k) + NumCardOfEncoded(k - 1, x);
      ShlAdd(16 * Shr4(x, k), NumCardOfEncoded(k - 1, x), k - 1);
      ShlScale(Shr4(x, k), k - 1);
    }
  }

  // ---------------------------------------------------------------------------
  // Field updates
  // ---------------------------------------------------------------------------

  /** Adding n copies at rank ct changes field ct by n and no other field, when field ct stays within 15. */
  lemma AddAt(x: int, ct: nat, n: nat, s: nat)
    requires NumCardOfEncoded(ct, x) + n <= 15
    ensures NumCardOfEncoded(s, x + Shl4(n, ct)) ==
            if s == ct then NumCardOfEncoded(ct, x) + n else NumCardOfEncoded(s, x)
  {
    var z := x + Shl4(n, ct);
    if s <= ct {
      ShrAddShl(x, n, ct, s);
      if s < ct {
        assert Shl4(n, ct - s) == 16 * Shl4(n, ct - s - 1);
      }
    } else {
      ShrCompose(z, ct, s - ct);
      ShrCompose(x, ct, s - ct);
      ShrAddShl(x, n, ct, ct);
      ShrLowChange(Shr4(x, ct), n, s - ct);
    }
  }

  /** Taking n copies from a field holding at least n changes that field only. */
  lemma SubAt(x: int, ct: nat, n: nat, s: nat)
    requires NumCardOfEncoded(ct, x) >= n
    ensures NumCardOfEncoded(s, x - Shl4(n, ct)) ==
            if s == ct then NumCardOfEncoded(ct, x) - n else NumCardOfEncoded(s, x)
  {
    var y := x - Shl4(n, ct);
    assert x == y + Shl4(n, ct);
    if s <= ct {
      ShrAddShl(y, n, ct, s);
      if s < ct {
        assert Shl4(n, ct - s) == 16 * Shl4(n, ct - s - 1);
      }
    } else {
      ShrCompose(y, ct, s - ct);
      ShrCompose(x, ct, s - ct);
      ShrAddShl(y, n, ct, ct);
      ShrLowChange(Shr4(x, ct), -(n as int), s - ct);
    }
  }

  /** With no carry out of field ct, a 64-bit value stays below 2^64 after the addition. */
  lemma AddNoOverflow(x: int, ct: nat, n: nat)
    requires 0 <= x < TWO_TO_64 && ct < 16
    requires NumCardOfEncoded(ct, x) + n <= 15
    ensures 0 <= x + Shl4(n, ct) < TWO_TO_64
  {
    var z := x + Shl4(n, ct);
    ShlMono(0, n, ct);
    ShlZero(ct);
    assert z >= 0;
    Powers();
    ShrBound(x, 16);
    assert Shr4(x, 16) == 0;
    ShrAddShl(x, n, ct, ct);
    assert Shr4(z, ct) == Shr4(x, ct) + n;
    ShrLowChange(Shr4(x, ct), n, 16 - ct);
    ShrCompose(z, ct, 16 - ct);
    ShrCompose(x, ct, 16 - ct);
    assert Shr4(z, 16) == 0;
    ShrBound(z, 16);
  }

  /** With no borrow out of field ct, the subtraction stays non-negative. */
  lemma SubNoBorrow(x: int, ct: nat, n: nat)
    requires x >= 0
    requires NumCardOfEncoded(ct, x) >= n
    ensures x - Shl4(n, ct) >= 0
  {
    var y := x - Shl4(n, ct);
    ShrAddShl(y, n, ct, ct);
    assert x == y + Shl4(n, ct);
    ShrSign(x, ct);
    ShrSign(y, ct);
  }

  /** After add(ct, n) field ct rises by n and every other field is unchanged,
      provided field ct stays within 15. */
  lemma AddToEncodedCardsFields(ct: nat, combo: EncodedCards, n: nat)
    requires ct < 16
    requires NumCardOfEncoded(ct, combo) + n <= 15
    ensures AddToEncodedCards(ct, combo, n) == combo + Shl4(n, ct)
    ensures forall s: nat :: NumCardOfEncoded(s, AddToEncodedCards(ct, combo, n)) ==
                (if s == ct then NumCardOfEncoded(ct, combo) + n else NumCardOfEncoded(s, combo))
  {
    AddNoOverflow(combo, ct, n);
    forall s: nat
      ensures NumCardOfEncoded(s, combo + Shl4(n, ct)) ==
        (if s == ct then NumCardOfEncoded(ct, combo) + n else NumCardOfEncoded(s, combo))
    {
      AddAt(combo, ct, n, s);
    }
  }

  /** After minus(ct, n) field ct falls by n and every other field is unchanged,
      provided field ct held at least n (no borrow). */
  lemma MinusFromEncodedCardsFields(ct: nat, combo: EncodedCards, n: nat)
    requires NumCardOfEncoded(ct, combo) >= n
    ensures MinusFromEncodedCards(ct, combo, n) == combo - Shl4(n, ct)
    ensures forall s: nat :: NumCardOfEncoded(s, MinusFromEncodedCards(ct, combo, n)) ==
                (if s == ct then NumCardOfEncoded(ct, combo) - n else NumCardOfEncoded(s, combo))
  {
    SubNoBorrow(combo, ct, n);
    ShlMono(0, n, ct);
    ShlZero(ct);
    forall s: nat
      ensures NumCardOfEncoded(s, combo - Shl4(n, ct)) ==
        (if s == ct then NumCardOfEncoded(ct, combo) - n else NumCardOfEncoded(s, combo))
    {
      SubAt(combo, ct, n, s);
    }
  }

  /** Subtraction undoes addition and addition undoes subtraction, for every 64-bit value. */
  lemma MinusUndoesAdd(ct: nat, combo: EncodedCards, n: nat)
    ensures MinusFromEncodedCards(ct, AddToEncodedCards(ct, combo, n), n) == combo
    ensures AddToEncodedCards(ct, MinusFromEncodedCards(ct, combo, n), n) == combo
  {
    ModCancel(combo, Shl4(n, ct));
    ModCancel(combo, -Shl4(n, ct));
  }

  lemma ModCancel(x: int, d: int)
    requires 0 <= x < TWO_TO_64
    ensures ((x + d) % TWO_TO_64 - d) % TWO_TO_64 == x
  {
  }

  // ---------------------------------------------------------------------------
  // Histograms and their packed form
  // ---------------------------------------------------------------------------

  /** A histogram whose counts fit a 4-bit field on every encoded rank. */
  predicate Encodable(h: Histogram)
  {
    |h| == MAX_CARD_TYPE_NUM && forall r :: START_CARD <= r < MAX_CARD_TYPE_NUM ==> 0 <= h[r] <= 15
  }

  /** A histogram of a hand that real cards can form: at most four of a rank. */
  predicate LegalCounts(h: Histogram)
  {
    |h| == MAX_CARD_TYPE_NUM && forall r :: 0 <= r < MAX_CARD_TYPE_NUM ==> 0 <= h[r] <= 4
  }

  /** Sum of h[r] << 4r over lo <= r < hi. */
  function PackFrom(h: seq<int>, lo: nat, hi: nat): int
    requires lo <= hi <= |h|
    decreases hi - lo
  {
    if hi == lo then 0 else PackFrom(h, lo, hi - 1) + Shl4(h[hi - 1], hi - 1)
  }

  /** The packed form of a histogram: ranks START_CARD..JOKER, each count in its own field. */
  function Encode(h: Histogram): int
    requires |h| == MAX_CARD_TYPE_NUM
  {
    PackFrom(h, START_CARD, MAX_CARD_TYPE_NUM)
  }

  /** The histogram read back from a packed word: ranks below START_CARD read 0. */
  function Decode(e: int): (h: Histogram)
    ensures |h| == MAX_CARD_TYPE_NUM
  {
    seq(MAX_CARD_TYPE_NUM, r requires 0 <= r => if r < START_CARD then 0 else NumCardOfEncoded(r, e))
  }

  /** All sixteen fields of x. */
  function Decode16(x: int): (d: seq<int>)
    ensures |d| == 16
  {
    seq(16, r requires 0 <= r => NumCardOfEncoded(r, x))
  }

  /** h with the ranks below START_CARD cleared. */
  function Restrict(h: Histogram): (g: Histogram)
    requires |h| == MAX_CARD_TYPE_NUM
    ensures |g| == MAX_CARD_TYPE_NUM
  {
    seq(MAX_CARD_TYPE_NUM, r requires 0 <= r < MAX_CARD_TYPE_NUM => if r < START_CARD then 0 else h[r])
  }

  lemma {:induction false} PackFromBounds(h: seq<int>, lo: nat, hi: nat)
    requires lo <= hi <= |h|
    requires forall r :: lo <= r < hi ==> 0 <= h[r] <= 15
    ensures 0 <= PackFrom(h, lo, hi) < Shl4(1, hi)
    decreases hi - lo
  {
    if hi == lo {
      ShlMono(0, 1, hi);
      ShlZero(hi);
      assert Shl4(1, hi) >= 1 by { ShlMono(1, 1, hi); ShlPositive(hi); }
    } else {
      PackFromBounds(h, lo, hi - 1);
      ShlMono(0, h[hi - 1], hi - 1);
      ShlMono(h[hi - 1], 15, hi - 1);
      ShlZero(hi - 1);
      ShlAdd(15, 1, hi - 1);
      ShlScale(1, hi - 1);
    }
  }

  lemma {:induction false} ShlPositive(k: nat)
    ensures Shl4(1, k) >= 1
  {
    if k > 0 {
      ShlPositive(k - 1);
    }
  }

  /** Field s of the packed range is h[s] inside the range and 0 outside it. */
  lemma {:induction false} PackFromFields(h: seq<int>, lo: nat, hi: nat, s: nat)
    requires lo <= hi <= |h|
    requires forall r :: lo <= r < hi ==> 0 <= h[r] <= 15
    ensures NumCardOfEncoded(s, PackFrom(h, lo, hi)) == if lo <= s < hi then h[s] else 0
    decreases hi - lo
  {
    if hi == lo {
      ShrZero(s);
    } else {
      var x := PackFrom(h, lo, hi - 1);
      PackFromFields(h, lo, hi - 1, hi - 1);
      PackFromFields(h, lo, hi - 1, s);
      AddAt(x, hi - 1, h[hi - 1], s);
    }
  }

  /** Encode gives a 64-bit value below 2^60. */
  lemma EncodeRange(h: Histogram)
    requires Encodable(h)
    ensures 0 <= Encode(h) < TWO_TO_60 < TWO_TO_64
  {
    PackFromBounds(h, START_CARD, MAX_CARD_TYPE_NUM);
    Powers();
  }

  /** Encode as a 64-bit value. */
  function Packed(h: Histogram): (e: EncodedCards)
    requires Encodable(h)
    ensures e == Encode(h) && e < TWO_TO_60
  {
    EncodeRange(h);
    Encode(h)
  }

  /** Round trip: decoding the packed form gives back the histogram on ranks NINE..JOKER
      and 0 below NINE. */
  lemma DecodeEncode(h: Histogram)
    requires Encodable(h)
    ensures 0 <= Encode(h) < TWO_TO_64
    ensures Decode(Encode(h)) == Restrict(h)
  {
    EncodeRange(h);
    var e := Encode(h);
    forall s | 0 <= s < MAX_CARD_TYPE_NUM
      ensures Decode(e)[s] == Restrict(h)[s]
    {
      PackFromFields(h, START_CARD, MAX_CARD_TYPE_NUM, s);
    }
  }

  /** Every field of Encode(h) at a rank NINE..JOKER holds that rank's count; all others are 0. */
  lemma EncodeFields(h: Histogram)
    requires Encodable(h)
    ensures 0 <= Encode(h) < TWO_TO_64
    ensures forall s: nat :: NumCardOfEncoded(s, Encode(h)) ==
                (if START_CARD <= s < MAX_CARD_TYPE_NUM then h[s] else 0)
  {
    EncodeRange(h);
    forall s: nat
      ensures NumCardOfEncoded(s, Encode(h)) == if START_CARD <= s < MAX_CARD_TYPE_NUM then h[s] else 0
    {
      PackFromFields(h, START_CARD, MAX_CARD_TYPE_NUM, s);
    }
  }

  lemma {:induction false} PackFromSplit(h: seq<int>, lo: nat, mid: nat, hi: nat)
    requires lo <= mid <= hi <= |h|
    ensures PackFrom(h, lo, hi) == PackFrom(h, lo, mid) + PackFrom(h, mid, hi)
    decreases hi - mid
  {
    if hi > mid {
      PackFromSplit(h, lo, mid, hi - 1);
    }
  }

  lemma {:induction false} PackFromAgree(g: seq<int>, h: seq<int>, lo: nat, hi: nat)
    requires lo <= hi <= |g| && hi <= |h|
    requires forall r :: lo <= r < hi ==> g[r] == h[r]
    ensures PackFrom(g, lo, hi) == PackFrom(h, lo, hi)
    decreases hi - lo
  {
    if hi > lo {
      PackFromAgree(g, h, lo, hi - 1);
    }
  }

  lemma {:induction false} PackFromZeros(h: seq<int>, lo: nat, hi: nat)
    requires lo <= hi <= |h|
    requires forall r :: lo <= r < hi ==> h[r] == 0
    ensures PackFrom(h, lo, hi) == 0
    decreases hi - lo
  {
    if hi > lo {
      PackFromZeros(h, lo, hi - 1);
      ShlZero(hi - 1);
    }
  }

  /** The other round trip: a word with no bits below rank NINE and none above rank JOKER
      is the packed form of its own decoding. */
  lemma EncodeDecode(e: EncodedCards)
    requires forall r :: 0 <= r < START_CARD ==> NumCardOfEncoded(r, e) == 0
    requires e < TWO_TO_60
    ensures Encode(Decode(e)) == e
  {
    var d := Decode16(e);
    LowFieldsSum(e, MAX_CARD_TYPE_NUM);
    Powers();
    ShrBound(e, MAX_CARD_TYPE_NUM);
    ShlZero(MAX_CARD_TYPE_NUM);
    PackFromAgree(d, Decode(e), 0, MAX_CARD_TYPE_NUM);
    PackFromSplit(Decode(e), 0, START_CARD, MAX_CARD_TYPE_NUM);
    PackFromZeros(Decode(e), 0, START_CARD);
  }

  /** Pointwise difference and sum of histograms. */
  function HistMinus(x: Histogram, y: Histogram): (d: Histogram)
    requires |x| == |y| == MAX_CARD_TYPE_NUM
    ensures |d| == MAX_CARD_TYPE_NUM
  {
    seq(MAX_CARD_TYPE_NUM, r requires 0 <= r < MAX_CARD_TYPE_NUM => x[r] - y[r])
  }

  function HistPlus(x: Histogram, y: Histogram): (d: Histogram)
    requires |x| == |y| == MAX_CARD_TYPE_NUM
    ensures |d| == MAX_CARD_TYPE_NUM
  {
    seq(MAX_CARD_TYPE_NUM, r requires 0 <= r < MAX_CARD_TYPE_NUM => x[r] + y[r])
  }

  lemma {:induction false} PackFromLinear(x: Histogram, y: Histogram, lo: nat, hi: nat)
    requires |x| == |y| == MAX_CARD_TYPE_NUM && lo <= hi <= MAX_CARD_TYPE_NUM
    ensures PackFrom(HistMinus(x, y), lo, hi) == PackFrom(x, lo, hi) - PackFrom(y, lo, hi)
    ensures PackFrom(HistPlus(x, y), lo, hi) == PackFrom(x, lo, hi) + PackFrom(y, lo, hi)
    decreases hi - lo
  {
    if hi > lo {
      PackFromLinear(x, y, lo, hi - 1);
      ShlAdd(x[hi - 1], y[hi - 1], hi - 1);
    }
  }

  lemma ModIdentity(v: int)
    requires 0 <= v < TWO_TO_64
    ensures v % TWO_TO_64 == v
  {
  }

  /** Subtracting packed hands in 64-bit arithmetic subtracts the histograms, when no count
      goes negative. */
  lemma Sub64Encode(x: Histogram, y: Histogram)
    requires Encodable(x) && Encodable(y)
    requires forall r :: START_CARD <= r < MAX_CARD_TYPE_NUM ==> y[r] <= x[r]
    ensures Encodable(HistMinus(x, y))
    ensures 0 <= Encode(x) < TWO_TO_64 && 0 <= Encode(y) < TWO_TO_64
    ensures Sub64(Encode(x), Encode(y)) == Encode(HistMinus(x, y))
  {
    var d := HistMinus(x, y);
    assert Encodable(d);
    EncodeRange(x);
    EncodeRange(y);
    EncodeRange(d);
    PackFromLinear(x, y, START_CARD, MAX_CARD_TYPE_NUM);
    assert Encode(x) - Encode(y) == Encode(d);
    ModIdentity(Encode(d));
  }

  /** Adding packed hands in 64-bit arithmetic adds the histograms, when no count passes 15. */
  lemma Add64Encode(x: Histogram, y: Histogram)
    requires Encodable(x) && Encodable(y)
    requires forall r :: START_CARD <= r < MAX_CARD_TYPE_NUM ==> x[r] + y[r] <= 15
    ensures Encodable(HistPlus(x, y))
    ensures 0 <= Encode(x) < TWO_TO_64 && 0 <= Encode(y) < TWO_TO_64
    ensures Add64(Encode(x), Encode(y)) == Encode(HistPlus(x, y))
  {
    var d := HistPlus(x, y);
    assert Encodable(d);
    EncodeRange(x);
    EncodeRange(y);
    EncodeRange(d);
    PackFromLinear(x, y, START_CARD, MAX_CARD_TYPE_NUM);
    assert Encode(x) + Encode(y) == Encode(d);
    ModIdentity(Encode(d));
  }

  /** The full deck: 4 of each of NINE..TWO, 1 of each joker, nothing below NINE. */
  function FullHistogram(): (h: Histogram)
    ensures |h| == MAX_CARD_TYPE_NUM
  {
    seq(MAX_CARD_TYPE_NUM, r requires 0 <= r =>
      if r < START_CARD then 0 else if r <= TWO then 4 else 1)
  }

  lemma FullCardsIsFullDeck()
    ensures Encodable(FullHistogram())
    ensures Encode(FullHistogram()) == FULL_CARDS
    ensures Decode(FULL_CARDS) == FullHistogram()
  {
    var h := FullHistogram();
    PowerTable();
    ShlMul(4, 6); ShlMul(4, 7); ShlMul(4, 8); ShlMul(4, 9); ShlMul(4, 10); ShlMul(4, 11); ShlMul(4, 12);
    ShlMul(1, 13); ShlMul(1, 14);
    assert PackFrom(h, 6, 6) == 0;
    assert PackFrom(h, 6, 7) == 0x4000000;
    assert PackFrom(h, 6, 8) == 0x44000000;
    assert PackFrom(h, 6, 9) == 0x444000000;
    assert PackFrom(h, 6, 10) == 0x4444000000;
    assert PackFrom(h, 6, 11) == 0x44444000000;
    assert PackFrom(h, 6, 12) == 0x444444000000;
    assert PackFrom(h, 6, 13) == 0x4444444000000;
    assert PackFrom(h, 6, 14) == 0x14444444000000;
    assert PackFrom(h, 6, 15) == 0x114444444000000;
    DecodeEncode(h);
    assert Restrict(h) == h;
  }

  // ---------------------------------------------------------------------------
  // The loops of the encoding helpers
  // ---------------------------------------------------------------------------

  /** toEncodedCards. The source ORs each shifted count into a still-empty field; with
      counts of at most 15 that is the same as adding it. */
  method ToEncodedCards(cardCounter: Histogram) returns (combo: EncodedCards)
    requires Encodable(cardCounter)
    ensures combo == Encode(cardCounter)
    ensures forall r: nat :: NumCardOfEncoded(r, combo) ==
                (if START_CARD <= r < MAX_CARD_TYPE_NUM then cardCounter[r] else 0)
  {
    combo := NO_CARDS;
    var i := START_CARD;
    while i <= BIG_JOKER
      invariant START_CARD <= i <= MAX_CARD_TYPE_NUM
      invariant combo == PackFrom(cardCounter, START_CARD, i)
    {
      PackFromBounds(cardCounter, START_CARD, i + 1);
      ShlMono(1, 1, i + 1);
      Powers();
      BoundUpTo15(i + 1);
      combo := combo + Shl4(cardCounter[i], i);
      i := i + 1;
    }
    EncodeFields(cardCounter);
  }

  lemma BoundUpTo15(k: nat)
    requires k <= 15
    ensures Shl4(1, k) <= TWO_TO_60
  {
    Powers();
    var j := k;
    while j < 15
      invariant k <= j <= 15
      invariant Shl4(1, k) <= Shl4(1, j)
    {
      j := j + 1;
    }
  }

  /** encodedCardsToCardCountVector. */
  method EncodedCardsToCardCountVector(cardCombo: EncodedCards) returns (cardCounter: Histogram)
    ensures |cardCounter| == MAX_CARD_TYPE_NUM
    ensures forall r :: 0 <= r < MAX_CARD_TYPE_NUM ==>
      cardCounter[r] == (if r < START_CARD then 0 else NumCardOfEncoded(r, cardCombo))
  {
    cardCounter := seq(MAX_CARD_TYPE_NUM, r => 0);
    var i := START_CARD;
    while i <= BIG_JOKER
      invariant START_CARD <= i <= MAX_CARD_TYPE_NUM
      invariant |cardCounter| == MAX_CARD_TYPE_NUM
      invariant forall r :: 0 <= r < MAX_CARD_TYPE_NUM ==>
        cardCounter[r] == (if START_CARD <= r < i then NumCardOfEncoded(r, cardCombo) else 0)
    {
      cardCounter := cardCounter[i := NumCardOfEncoded(i, cardCombo)];
      i := i + 1;
    }
  }

  // ---------------------------------------------------------------------------
  // Card ids
  // ---------------------------------------------------------------------------

  /** A card id: 0..53, four per ordinary rank in rank order, then the two jokers. */
  predicate IsCard(c: int)
  {
    0 <= c < MAX_CARD_NUM
  }

  /** cardTypeOf: `(c >> 2) + (c & 1 && c >= 52)`. */
  function CardTypeOf(c: int): (r: int)
    requires IsCard(c)
    ensures 0 <= r < MAX_CARD_TYPE_NUM
    ensures c < 52 ==> 4 * r <= c < 4 * r + 4
    ensures c == 52 ==> r == SMALL_JOKER
    ensures c == 53 ==> r == BIG_JOKER
  {
    c / 4 + (if c % 2 == 1 && c >= MAX_CARD_NUM - 2 then 1 else 0)
  }

  /** How many cards of cards[..n] have rank r. */
  function CountRank(cards: seq<int>, n: nat, r: int): (k: nat)
    requires n <= |cards|
    requires forall i :: 0 <= i < |cards| ==> IsCard(cards[i])
    ensures k <= n
  {
    if n == 0 then 0
    else CountRank(cards, n - 1, r) + (if CardTypeOf(cards[n - 1]) == r then 1 else 0)
  }

  /** toCardCountVector. */
  method ToCardCountVector(cardCombo: seq<int>) returns (cardCounter: Histogram)
    requires forall i :: 0 <= i < |cardCombo| ==> IsCard(cardCombo[i])
    ensures |cardCounter| == MAX_CARD_TYPE_NUM
    ensures forall r :: 0 <= r < MAX_CARD_TYPE_NUM ==>
      cardCounter[r] == CountRank(cardCombo, |cardCombo|, r)
  {
    cardCounter := seq(MAX_CARD_TYPE_NUM, r => 0);
    var n := 0;
    while n < |cardCombo|
      invariant 0 <= n <= |cardCombo|
      invariant |cardCounter| == MAX_CARD_TYPE_NUM
      invariant forall r :: 0 <= r < MAX_CARD_TYPE_NUM ==> cardCounter[r] == CountRank(cardCombo, n, r)
    {
      var ct := CardTypeOf(cardCombo[n]);
      cardCounter := cardCounter[ct := cardCounter[ct] + 1];
      n := n + 1;
    }
  }

  // ---------------------------------------------------------------------------
  // Whole-hand helpers
  // ---------------------------------------------------------------------------

  /** A packed hand is empty when each of its fields NINE..JOKER is zero. */
  predicate IsEmptyHand(e: EncodedCards)
  {
    forall r :: START_CARD <= r < MAX_CARD_TYPE_NUM ==> NumCardOfEncoded(r, e) == 0
  }

  /** isFinished: some seat has no card left. */
  method IsFinished(state: seq<EncodedCards>) returns (finished: bool)
    ensures finished <==> exists k :: 0 <= k < |state| && IsEmptyHand(state[k])
  {
    var k := 0;
    while k < |state|
      invariant 0 <= k <= |state|
      invariant forall m :: 0 <= m < k ==> !IsEmptyHand(state[m])
    {
      var cardCounter := EncodedCardsToCardCountVector(state[k]);
      var flag := true;
      var i := 0;
      while i < |cardCounter|
        invariant 0 <= i <= |cardCounter|
        invariant flag <==> forall r :: 0 <= r < i ==> cardCounter[r] == 0
      {
        if cardCounter[i] != 0 {
          flag := false;
          break;
        }
        i := i + 1;
      }
      assert flag <==> forall r :: 0 <= r < MAX_CARD_TYPE_NUM ==> cardCounter[r] == 0;
      if flag {
        return true;
      }
      assert !IsEmptyHand(state[k]) by {
        var r :| 0 <= r < MAX_CARD_TYPE_NUM && cardCounter[r] != 0;
        assert START_CARD <= r;
      }
      k := k + 1;
    }
    return false;
  }

  /** A packed histogram is an empty hand exactly when every count NINE..JOKER is zero. */
  lemma EmptyHandIsZero(h: Histogram)
    requires Encodable(h)
    ensures 0 <= Encode(h) < TWO_TO_64
    ensures IsEmptyHand(Encode(h)) <==> forall r :: START_CARD <= r < MAX_CARD_TYPE_NUM ==> h[r] == 0
  {
    EncodeFields(h);
  }

  /** The low 60 bits of a word: its fields 0..14. */
  function Low60(combo: EncodedCards): int
  {
    combo % TWO_TO_60
  }

  /** playCard: take away, rank by rank, the count the combo holds at that rank. */
  method PlayCard(prev: EncodedCards, combo: EncodedCards) returns (rest: EncodedCards)
    ensures rest == Sub64(prev, Low60(combo))
  {
    rest := prev;
    var i := 0;
    while i < MAX_CARD_TYPE_NUM
      invariant 0 <= i <= MAX_CARD_TYPE_NUM
      invariant rest == (prev - PackFrom(Decode16(combo), 0, i)) % TWO_TO_64
    {
      var n := NumCardOfEncoded(i, combo);
      rest := MinusFromEncodedCards(i, rest, n);
      PlayCardStep(prev, combo, i);
      i := i + 1;
    }
    LowPart(combo);
  }

  /** Taking field i away once more is taking away the first i + 1 fields. */
  lemma PlayCardStep(prev: EncodedCards, combo: EncodedCards, i: nat)
    requires i < MAX_CARD_TYPE_NUM
    ensures ((prev - PackFrom(Decode16(combo), 0, i)) % TWO_TO_64 - Shl4(NumCardOfEncoded(i, combo), i)) % TWO_TO_64
            == (prev - PackFrom(Decode16(combo), 0, i + 1)) % TWO_TO_64
  {
    var d := Decode16(combo);
    assert d[i] == NumCardOfEncoded(i, combo);
    assert PackFrom(d, 0, i + 1) == PackFrom(d, 0, i) + Shl4(d[i], i);
    ModSubAgain(prev, PackFrom(d, 0, i), Shl4(d[i], i));
  }

  lemma LowPart(combo: EncodedCards)
    ensures Low60(combo) == PackFrom(Decode16(combo), 0, MAX_CARD_TYPE_NUM)
  {
    var d := Decode16(combo);
    var p := PackFrom(d, 0, MAX_CARD_TYPE_NUM);
    var q := Shr4(combo, MAX_CARD_TYPE_NUM);
    LowFieldsSum(combo, MAX_CARD_TYPE_NUM);
    PackFromBounds(d, 0, MAX_CARD_TYPE_NUM);
    Powers();
    ShlMul(q, MAX_CARD_TYPE_NUM);
    assert combo == p + q * TWO_TO_60;
    assert 0 <= p < TWO_TO_60;
    ModUnique(combo, q, p);
  }

  lemma ModUnique(v: int, q: int, p: int)
    requires v == p + q * TWO_TO_60 && 0 <= p < TWO_TO_60
    ensures v % TWO_TO_60 == p
  {
  }

  lemma ModSubAgain(x: int, a: int, b: int)
    ensures ((x - a) % TWO_TO_64 - b) % TWO_TO_64 == (x - (a + b)) % TWO_TO_64
  {
  }

  /** Playing a combo that fits in the hand takes exactly its counts away from the hand. */
  lemma PlayCardFits(prev: Histogram, combo: Histogram)
    requires Encodable(prev) && Encodable(combo)
    requires forall r :: START_CARD <= r < MAX_CARD_TYPE_NUM ==> combo[r] <= prev[r]
    ensures 0 <= Encode(prev) < TWO_TO_64 && 0 <= Encode(combo) < TWO_TO_64
    ensures Sub64(Encode(prev), Low60(Encode(combo))) == Encode(HistMinus(prev, combo))
  {
    EncodeRange(combo);
    ModUnique(Encode(combo), 0, Encode(combo));
    Sub64Encode(prev, combo);
  }
}

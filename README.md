# Mini-Doudizhu card engine

This project models the card engine of a Mini-Doudizhu bot (`minidoudizhu.cpp`).
Mini-Doudizhu is Dou Dizhu for three seats played with the ranks NINE to TWO and the two jokers. The model covers:

- the packed 64-bit card word, which holds one 4-bit count per rank, and its helper functions;
- the analysis of a played hand (struct `Hand`);
- the generator of legal replies (`DoudizhuState`: `genRocket`, `genBombs`, `validActions`,
  `generateAppendix`, `decodeAction`), plus `playCard` and `isFinished`;
- the heuristic hand score (`evaluate_each_player`, `evaluate_global_situation`);
- the hidden-hand inference: the depth-first enumeration of `transverseAllHands` and the
  lower-bound search of `sample`.

Modules follow the source:

| Module | File | Models |
|---|---|---|
| `Encoding` | encoding.dfy | the card word, the count vectors, `playCard`, `isFinished` |
| `Hands` | hand.dfy | the `Hand` constructor and predicates |
| `State` | state.dfy | the two constructors, `genRocket`, `genBombs`, `decodeAction` |
| `Combinations` | combinations.dfy | the k-subsets that Gosper's step walks, with their colex rank |
| `Kickers` | kickers.dfy | `generateAppendix` |
| `Respond` | respond.dfy | the must-beat branches of `validActions` |
| `Lead` | lead.dfy | the free-lead branch of `validActions` |
| `Actions` | actions.dfy | `validActions` as one operation |
| `Evaluate` | evaluate.dfy | the hand score |
| `Inference` | inference.dfy | `transverseAllHands` and `sample` |

The model takes the source's form:

- **Loops become methods.** Each method has loop invariants and is proved equal to a specification function. The properties are then lemmas about that function.
- **The card word is an integer below 2^64.** Count fields are read as `(e / 16^r) % 16`. Subtraction and addition wrap modulo 2^64, as `unsigned long long` does in C++.
- **Histograms are `seq<int>` of length 15.**
- **The inference engine is a class.** Its running normaliser and its two result vectors are fields. `transverseAllHands` updates the count arrays in place and gives `known_cards_a` back unchanged.

## Model

| member | source | states |
|---|---|---|
| Encoding.NumCardOfEncoded | minidoudizhu.cpp:147-151 | a field read is a count from 0 to 15 |
| Encoding.AddToEncodedCardsFields | minidoudizhu.cpp:133-137 | if the field stays at 15 or below, adding n at rank ct raises that field by n and leaves every other field unchanged |
| Encoding.MinusFromEncodedCardsFields | minidoudizhu.cpp:140-144 | if the field holds at least n, subtracting n at rank ct lowers that field by n and leaves the others unchanged |
| Encoding.MinusUndoesAdd | minidoudizhu.cpp:133-144 | minus undoes add and add undoes minus, for every word, because both wrap modulo 2^64 |
| Encoding.ToEncodedCards | minidoudizhu.cpp:110-119 | the packed word holds count r in field r for ranks NINE..JOKER and 0 below NINE |
| Encoding.EncodedCardsToCardCountVector | minidoudizhu.cpp:122-130 | the vector holds the field of every rank from NINE on, and 0 below NINE |
| Encoding.DecodeEncode | minidoudizhu.cpp:110-130 | decoding a packed count vector gives it back on NINE..JOKER, with 0 below NINE |
| Encoding.EncodeDecode | minidoudizhu.cpp:110-130 | packing a decoded word gives the word back when it has nothing below NINE or above JOKER |
| Encoding.EncodeFields | minidoudizhu.cpp:110-119 | every field of a packed vector is the vector's count on NINE..JOKER and 0 elsewhere |
| Encoding.Sub64Encode | minidoudizhu.cpp:140-144 | without a borrow, word subtraction is rank-wise subtraction of the counts |
| Encoding.Add64Encode | minidoudizhu.cpp:133-137 | without an overflow past 15, word addition is rank-wise addition of the counts |
| Encoding.FullCardsIsFullDeck | minidoudizhu.cpp:23 | FULL_CARDS is four of each rank NINE..TWO and one of each joker |
| Encoding.CardTypeOf | minidoudizhu.cpp:93-97 | the ids 4r..4r+3 below 52 are rank r, id 52 is the small joker and id 53 the big joker |
| Encoding.ToCardCountVector | minidoudizhu.cpp:99-107 | entry r counts the cards of rank r in the list |
| Encoding.IsFinished | minidoudizhu.cpp:154-171 | true exactly when some hand of the state is empty |
| Encoding.EmptyHandIsZero | minidoudizhu.cpp:154-171 | a packed hand reads as empty exactly when every count from NINE on is 0 |
| Encoding.PlayCard | minidoudizhu.cpp:912-917 | the result is the hand less the move's fields 0..14, on 64-bit words |
| Encoding.PlayCardFits | minidoudizhu.cpp:912-917 | when the move fits in the hand, playCard removes its counts rank by rank |
| Hands.HandOf | minidoudizhu.cpp:189-253 | the constructor's one scan gives the analysis Classify defines |
| Hands.ScanMeaning | minidoudizhu.cpp:206-225 | after ranks NINE..i-1 the scan variables hold the total, the highest count, the first rank with it, how many ranks have it, and the lowest rank held |
| Hands.ScanClassify | minidoudizhu.cpp:228-252 | the analysis is PASS, ROCKET or (count, first rank, run length, total/length − count), chosen by the scan variables in that order |
| Hands.ClassifyPass | minidoudizhu.cpp:228-235 | PASS exactly when the hand is empty, and then the length and the word are 0 |
| Hands.PassComboIsEmpty | minidoudizhu.cpp:295-298 | the free isPass of a word holds exactly when the word is empty from NINE on |
| Hands.ClassifyRocket | minidoudizhu.cpp:237-244 | with legal counts and at most one of each joker, ROCKET exactly when the hand is the two jokers; the start is then the small joker and the length 2 |
| Hands.ClassifyMain | minidoudizhu.cpp:246-248 | otherwise the kind is the highest count and the start is the lowest rank holding it |
| Hands.ClassifyAppendix | minidoudizhu.cpp:250-252 | the length is the number of ranks at the highest count, the appendix is at least 0, and kind + appendix is total/length rounded down |
| Hands.ClassifyBomb | minidoudizhu.cpp:266-269 | isBomb holds exactly when the hand is four of one rank and nothing else |
| Hands.BombIsOneQuadruple | minidoudizhu.cpp:266-269 | a bomb's start is the rank it holds four of |
| Hands.ClassifySmall | minidoudizhu.cpp:246-252 | n copies of one rank, not the joker pair, analyse as kind n, start at that rank, length 1, appendix 0 |
| Hands.ClassifyShape | minidoudizhu.cpp:189-253 | every analysis has the shape that validActions relies on: kind, start and length in range |
| State.FromCards | minidoudizhu.cpp:311-313 | the state keeps my cards, counts them, and analyses the hand to answer |
| State.FromEncoded | minidoudizhu.cpp:315-317 | the state decodes both words and keeps no card ids |
| State.CopiesFacts | minidoudizhu.cpp:319-344 | the move of n copies of rank r holds n in field r and 0 elsewhere |
| State.CopiesOrder | minidoudizhu.cpp:484-486 | words of n copies compare as their (rank, count) pairs, so bomb words compare as their ranks |
| State.RocketMove | minidoudizhu.cpp:319-328 | genRocket is non-empty exactly when I hold one of each joker, and it is then the two-joker word, which analyses as ROCKET |
| State.GenBombs | minidoudizhu.cpp:331-344 | the list is BombsUpTo, one word per rank NINE..TWO that I hold four of |
| State.BombsMembers | minidoudizhu.cpp:331-344 | a word is in the list exactly when it is four of a rank NINE..TWO that I hold four of |
| State.BombsAscending | minidoudizhu.cpp:331-344 | the bombs come in strictly ascending order |
| State.DecodeAction | minidoudizhu.cpp:693-711 | the greedy scan over my cards gives DecodePrefix's action |
| State.DecodeActionMeaning | minidoudizhu.cpp:693-711 | the output is a subsequence of my cards with min(held, demanded) cards of each rank, so it spells the move exactly when the move fits in my hand |
| Combinations.AllSubsets | minidoudizhu.cpp:658-684 | walking Gosper's successor from the first k-subset of n visits C(n,k) pairwise-distinct k-subsets |
| Combinations.SuccShape | minidoudizhu.cpp:681-683 | the successor of a k-subset is an ascending list again, and it reaches n only after the last subset in colex order |
| Combinations.FirstIsCombo | minidoudizhu.cpp:656 | the low-k-bits start is a k-subset of colex rank 0 |
| Kickers.EligibleRanks | minidoudizhu.cpp:640-651 | the loop collects EligibleUpTo, the ascending list of eligible kicker ranks |
| Kickers.EligibleMembers | minidoudizhu.cpp:640-651 | every collected rank holds at least appendix_type cards and lies outside (end_type − seq_length, end_type] |
| Kickers.EligibleComplete | minidoudizhu.cpp:640-651 | every such rank is collected |
| Kickers.EligibleAscending | minidoudizhu.cpp:640-651 | in ascending order |
| Kickers.Overrides | minidoudizhu.cpp:609-634 | a triplet or quadruple to answer overrides the length, the number of kicker groups and the kicker size |
| Kickers.KickerWord | minidoudizhu.cpp:667-676 | decoding the subset's bits adds appendix_type copies of each chosen eligible rank |
| Kickers.Enumerate | minidoudizhu.cpp:660-684 | the Gosper loop records the kicker word of every subset on the walk |
| Kickers.GenerateAppendix | minidoudizhu.cpp:602-690 | the result is AppendixSpec: empty when too few ranks are eligible, else the kicker words of all subsets |
| Kickers.AppendixCount | minidoudizhu.cpp:653-684 | with n eligible ranks and k = seq_length·num_appendixes needed, k > n gives [] and otherwise C(n,k) kicker sets |
| Kickers.AppendixDistinct | minidoudizhu.cpp:653-684 | the kicker sets are pairwise distinct |
| Kickers.AppendixKickers | minidoudizhu.cpp:653-684 | each kicker set is appendix_type copies of k distinct eligible ranks |
| Respond.PushWithKickers | minidoudizhu.cpp:523-528 | each kicker set is added to the main word in order |
| Respond.BeatBomb | minidoudizhu.cpp:481-490 | the bombs above the one to beat, in order |
| Respond.HigherBombsAreAbove | minidoudizhu.cpp:481-490 | the bombs above four of rank q are my bombs at ranks q+1..TWO |
| Respond.BeatSmall | minidoudizhu.cpp:499-512 | the loop gives BeatSmallUpTo on the ranks above the start, up to JOKER |
| Respond.BeatSmallMembers | minidoudizhu.cpp:499-512 | a word is offered exactly when it is `kind` copies of a rank in range that I hold at least `kind` of |
| Respond.BeatSmallAscending | minidoudizhu.cpp:499-512 | the offers are strictly ascending, so each comes once |
| Respond.BeatTriplet | minidoudizhu.cpp:513-539 | the loop gives BeatTripletUpTo |
| Respond.TripletsBare | minidoudizhu.cpp:530-535 | without kickers a triplet is answered by bare higher triplets, and a quadruple by nothing (the bombs come later) |
| Respond.TripletWithKickers | minidoudizhu.cpp:517-529 | with kickers each answer is a held triplet or quadruple above the start plus a kicker choice |
| Respond.BeatChain | minidoudizhu.cpp:540-584 | the sliding window gives ChainScanTo |
| Respond.ChainScanOut | minidoudizhu.cpp:540-584 | the window scan emits the reference list ChainRef |
| Respond.ChainAnswers | minidoudizhu.cpp:540-584 | without kickers a word is offered exactly when it is `length` consecutive held ranks of the chain's kind, starting above its start and ending at or below ACE, and it holds `kind` of each of them and nothing else |
| Lead.LeadSmall | minidoudizhu.cpp:369-380 | the loop gives LeadSmallUpTo |
| Lead.LeadSmallMembers | minidoudizhu.cpp:369-380 | every single and every pair I can form is offered, and nothing else |
| Lead.LeadSmallAscending | minidoudizhu.cpp:369-380 | in strictly ascending order |
| Lead.LeadTriplets | minidoudizhu.cpp:383-412 | the loop gives LeadTripletsUpTo |
| Lead.LeadTripletsBare | minidoudizhu.cpp:403-407 | without kickers, bare triplets of every rank NINE..TWO I hold three of, and no bare quadruples |
| Lead.LeadTripletKickers | minidoudizhu.cpp:389-401 | with kickers each move is three or four of a held rank plus one or two kicker groups of singles or pairs |
| Lead.LeadChainMoves | minidoudizhu.cpp:414-468 | the chain loops as written, with the k loop trimming a[j] in place, give LeadChainsAsWritten |
| Lead.LeadRank | minidoudizhu.cpp:418-467 | one rank of the loop: each run grows by the rank or breaks, then the chains ending there are emitted with the in-place trim, as Extend and JLoop say |
| Lead.LeadRun | minidoudizhu.cpp:435-467 | one turn of the loop over j emits the chains of the run of j copies and leaves a[j] trimmed, as JLoop with the in-place trim says |
| Lead.Subchains | minidoudizhu.cpp:438-466 | the k loop emits a[j] as the chain k .. i, then takes rank k out of a[j] itself, and returns the word left |
| Lead.JLoopAgree | minidoudizhu.cpp:435-467 | the in-place trim of a[j] does not change the chains emitted at the same rank, since each k loop reads its own a[j] before trimming it |
| Lead.ScanAgree | minidoudizhu.cpp:418-468 | when no run of ranks held j times is longer than SEQ_MIN_LENGTH[j], the loops as written emit the same chains as the corrected ones, and a[j] differs only where its run reached the minimum length |
| Lead.AsWrittenAgrees | minidoudizhu.cpp:414-468 | under that condition the chain moves as written equal those of the corrected loops |
| Lead.AsWrittenChainMembers | minidoudizhu.cpp:414-468 | under that condition, as written and without kickers, a word is offered exactly when it is j copies of each rank in a held window of at least SEQ_MIN_LENGTH[j] ranks ending at or below ACE |
| Lead.LeadChainsAreRef | minidoudizhu.cpp:414-468 | the corrected loops (trimming a copy of a[j]) emit their reference list of chains |
| Lead.ChainsMembers | minidoudizhu.cpp:414-468 | in the corrected loops, a chain is emitted exactly when I can lead it |
| Lead.LeadChainMembers | minidoudizhu.cpp:414-468 | in the corrected loops, without kickers a word is offered exactly when it is j copies of each rank in a held window of at least SEQ_MIN_LENGTH[j] ranks that ends at or below ACE |
| Lead.LeadChainKickerMembers | minidoudizhu.cpp:440-457 | in the corrected loops, with kickers each offer is a leadable chain's move with its kickers |
| Lead.TrimQuirk | minidoudizhu.cpp:465 | as written, with three each of NINE, TEN and JACK the chain moves are four words, one of them holding 13 nines |
| Lead.NineToJackOffered | minidoudizhu.cpp:414-468 | the corrected loops, trimming a copy, offer the triplet chain NINE-TEN-JACK for that hand |
| Actions.ValidActions | minidoudizhu.cpp:349-600 | the method gives ValidMoves, whose free-lead chains are those of the loops as written |
| Actions.PassFirst | minidoudizhu.cpp:471-478 | against any hand, pass comes first; against a rocket it is the only move |
| Actions.KickersFollowLast | minidoudizhu.cpp:364-366 | against a hand without kickers, asking for kickers changes nothing |
| Actions.BombAnswers | minidoudizhu.cpp:479-498 | against a bomb the replies are pass, then my bombs strictly above it in ascending order, then the rocket if I hold it, and nothing else |
| Actions.SmallAnswers | minidoudizhu.cpp:499-512 | against a single or pair, after pass come `kind` copies of each higher held rank up to JOKER, strictly ascending, then the bombs and the rocket |
| Actions.ChainAnswersOffered | minidoudizhu.cpp:540-584 | against a chain without kickers, after pass come exactly the higher chains of the same shape that I hold |
| Actions.BombsAndRocketOffered | minidoudizhu.cpp:586-596 | unless the hand to answer is a rocket or a bomb, every bomb I hold is offered, and the rocket whenever I hold it and the hand is not a rocket |
| Actions.LeadOffers | minidoudizhu.cpp:367-470 | on a free lead the list is the singles and pairs, triplets, chains as written, bombs and rocket; every single and pair I can form is offered; when no run is longer than the minimum chain length, the chains offered are exactly the chains I can lead |
| Actions.ShortRunChains | minidoudizhu.cpp:414-468 | when no run is longer than the minimum chain length, the chain moves as written are exactly the chains I can lead, and each is in the list |
| Evaluate.EvaluateEachPlayer | minidoudizhu.cpp:713-780 | the method gives Score: the joker value, the value of triplets and bombs, the loose singles and pairs that no triplet carries, less 10 per hand |
| Evaluate.LooseRanks | minidoudizhu.cpp:750-777 | the loose ranks are the ranks holding one or two cards, ascending |
| Evaluate.LooseStep | minidoudizhu.cpp:750-777 | a loose rank is carried by a spare triplet when one is left, or else scores 2r for a single and 3r for a pair |
| Evaluate.EmptyHandScore | minidoudizhu.cpp:713-780 | the empty hand scores 0 |
| Evaluate.RocketOnlyScore | minidoudizhu.cpp:721-778 | a hand of just the two jokers scores 130 − 10 |
| Evaluate.NoTripletsKeepsLoose | minidoudizhu.cpp:750-778 | with no triplet every loose rank scores and counts as a hand |
| Evaluate.EvaluateGlobalSituation | minidoudizhu.cpp:784-798 | the landlord's value is its score less half the peasants'; a peasant's value is half the peasants' sum less the landlord's score |
| Inference.EnumerateSound | minidoudizhu.cpp:837-889 | every recorded split has 9 + 3·(player_a == 0) cards and grows known_a only by unknown cards, at most four of a rank, from rank cur on |
| Inference.EnumerateExactlyOnce | minidoudizhu.cpp:837-889 | for sensible inputs, a split is recorded exactly when it is consistent, and no split is recorded twice |
| Inference.EnumerateDistinct | minidoudizhu.cpp:877-888 | no split is recorded twice |
| Inference.EnumerateComplete | minidoudizhu.cpp:877-888 | every consistent split is recorded |
| Inference.FoldRecords | minidoudizhu.cpp:869-872 | the recorded hands are the packed splits in order, one distribution value per split, the last being the normaliser |
| Inference.FoldCdf | minidoudizhu.cpp:869-871 | with non-negative weights the recorded distribution is non-decreasing and bounded by the normaliser |
| Inference.Inference.TransverseAllHands | minidoudizhu.cpp:837-889 | the recursion records the splits of Enumerate in order (the other hand, normaliser, distribution and packed hand as Fold says) and gives known_a back unchanged |
| Inference.Inference.Spread | minidoudizhu.cpp:879-888 | the loop at rank cur records Enumerate's splits and breaks at the first count that overfills the hand |
| Inference.Inference.Descend | minidoudizhu.cpp:883-885 | one turn adds i cards of rank cur, records the splits from rank cur + 1 on, and takes the cards back |
| Inference.Inference.Record | minidoudizhu.cpp:847-874 | the leaf writes the other opponent's hand full − a − mine from NINE on, adds the weight to the normaliser, and records the normaliser and the packed split |
| Inference.Inference.CountCards | minidoudizhu.cpp:840-842 | the count is the sum of known_a over all 15 ranks |
| Inference.FirstReaching | minidoudizhu.cpp:894-904 | the index is the first whose distribution value reaches x, or the last |
| Inference.FirstReachingUnique | minidoudizhu.cpp:894-904 | only one index has that property |
| Inference.LowerBound | minidoudizhu.cpp:895-904 | for a non-decreasing distribution the search returns the first index reaching x, or the last index |
| Inference.Inference.Sample | minidoudizhu.cpp:892-909 | the drawn split is the first one reaching x when the distribution is non-decreasing, and it is turned into the three current hands |
| Inference.CurrentHandsCounts | minidoudizhu.cpp:906-908 | when nothing borrows, the hands are a − played_a, FULL − a − mine − played_b and mine − played_c, rank by rank |

## Left out

- The MCTS search (UCT, expand, the tree and policy code, DetMCTS) is left out. It rests on floating point, randomness and heap-allocated trees.
- `botzone` and `main` are left out. They are JSON input/output and the history reconstruction.
- The likelihood of a split is left out. This covers `getComboProbability`, its `pow(0.95, k)`, and the history replay at the leaf of `transverseAllHands`. The model takes a table of weights (`WeightOf`) in their place, and a split missing from the table weighs 0.
- `rand()` in `sample` becomes the parameter `x`.
- Floating point is left out. `evaluate_each_player` returns a `double` whose terms are all integers, so the model uses `int`. `evaluate_global_situation` and the weights use `real`.
- Inference.LowerBound and Inference.Inference.Sample are proved to find the first index only for a non-decreasing distribution. The source allows weights of −1, and for those the model still states that the index is in range.
- Sample requires at least one recorded split. The source reads out of bounds on an empty posterior.
- Five cards of one rank are not legal hands, yet the `Hand` constructor reads them as kind 5, which is ROCKET. The model keeps that, and its lemmas about rockets require legal counts.
- Actions.ValidActions is proved only for states whose hand to answer has the shape the `Hand` constructor gives, and whose counts are 0..4. The source indexes five-entry vectors by count and would go out of bounds otherwise.
- `toEncodedCards` combines fields with `|=`. The model uses `+`, which gives the same value because every count is 0..15 and fields do not overlap.
- Gosper's bitmask is modelled as the ascending list of its set-bit positions. Its successor is the next subset in colex order, which is what Gosper's step computes.
- Quadruple-with-kicker answers are left out. The analysis sets the appendix to 2 for four-plus-two-singles, and `generateAppendix` reuses that number as the kicker size. The model follows the code, and no lemma claims that such answers match the shape of the hand to answer.
- With kickers requested on a free lead, bare triplets are not emitted. The model follows the code, and no lemma claims that every triplet is offered.
- The model does not claim that `transverseAllHands` scores both opponents. Its likelihood product is left out (see above).
- Actions.LeadOffers states that every chain I can lead is offered only when no run of ranks held j times is longer than SEQ_MIN_LENGTH[j]. For longer runs the loops as written trim a[j] in place and miss chains (see Findings), and the model follows them.
- Inference.EnumerateExactlyOnce (completeness) assumes known_a counts of 0..4 and non-negative unknown counts from rank cur on. The source never calls it otherwise.
- Inference.Inference.Record writes the other opponent's hand only from NINE on, as the source does. Lower ranks of known_b keep their old values.

## Findings

| source | as written | input that shows it | evidently intended | confidence | as-written member | corrected member |
|---|---|---|---|---|---|---|
| minidoudizhu.cpp:465 | the free-lead k loop trims `a[j]` itself, and the trimmed value carries over to the next rank | a free lead holding just three each of NINE, TEN and JACK, without kickers: the triplet chain NINE-TEN-JACK is never offered, and a word holding 13 nines is | trim a copy of `a[j]`, so that every held window of at least SEQ_MIN_LENGTH[j] ranks is offered | not executed | Lead.TrimQuirk | Lead.LeadChainMembers |

# Five-card poker hand evaluator

A Dafny model of the hand evaluator in `poker/biPai.go`. The evaluator:

- sorts a five-card hand into one of ten categories, from HighCard to RoyalFlush;
- attaches an integer tie-break value to each category;
- compares two hands by category first and by value second.

Modules:

- `Cards`: suits, ranks and hand categories. These are subset types of `int` numbered as Go's `iota` constants. `Card`, `Hand` and `Detection` (the `(bool, int)` pair every detector returns) are defined here, along with the highest and lowest rank of a hand.
- `Counting`: the Go `map[Rank]int` / `map[Suit]int` tallies. A tally is related to the multiset of the scanned values. `Completed(xs, k)` lists the values in the order their counter reaches k, which is what the early-returning scans and the `pairs` slice of `isTwoPair` observe.
- `Sorting`: the in-place ascending sort that `isStraight` applies to its fresh `ranks` array (an insertion sort), proved to sort and to permute.
- `Straights`: `isConsecutive` and `isStraight`.
  - The methods run the source's loops.
  - `IsConsecutive` is proved equivalent to the predicate `Consecutive` (every element is the previous one plus 1).
  - `IsStraight` is proved equal to `StraightOf`, which states the answer on the multiset of ranks: a run of five, or the wheel A-2-3-4-5.
- `Detectors`: `highCardValue`, `isFourOfAKind`, `isThreeOfAKind`, `isOnePair`, `isTwoPair`, `isFlush` and `isFullHouse`.
  - Each is a method with the source's counting loop, proved equal to a specification function.
  - Lemmas state what those functions mean in terms of how often each rank or suit occurs.
  - The `range` over the full-house tally visits keys in an arbitrary order (`WalkTally`). The result is proved to be the same for every order.
- `Evaluator`: `isStraightFlush`, `isRoyalFlush`, `evaluateHand` and `CompareHands` are straight-line compositions of calls, so they are functions. Lemmas classify hands and bound the values.
- `Scenarios`: the straight cases of `poker/biPai_test.go`, the comparison `main.go` performs, and the Twos full-house case.

The model follows the code as written, including where it departs from standard poker ranking:

- A triple plus a pair in which either rank is Two is not a full house. `isFullHouse` tests both ranks against 0, and 0 is Two. Unless all five cards share a suit, the hand is three of a kind valued by the triple's rank: 0 for 2-2-2-5-5, Five for 5-5-5-2-2.
- The two-pair value is `pairs[1] * 13 + pairs[0]` in the order the pairs complete during the scan, not `max * 13 + min`. The same cards in another order can score differently.
- A hand holding both a Two and an Ace is valued Five by `isStraight`, straight or not. It is a straight when its four lowest sorted ranks are consecutive.
- `CompareHands` returns the difference of categories or of values, not -1/0/1.
- No error is raised for a hand whose length is not five; such hands are outside the model (see below).

## Model

| member | source | states |
|---|---|---|
| Cards.MaxRank | poker/biPai.go:240-248 | the result bounds every rank of the hand and is attained by a card; an empty hand gives Two (0), the accumulator's start |
| Counting.Completed | poker/biPai.go:214-219 | a value is listed iff it occurs at least k times, and each value is listed once (in the order its k-th occurrence appears) |
| Counting.CompletedOrder | poker/biPai.go:217-222 | of two listed values, the earlier one is complete at some point of the scan where the later one is not |
| Counting.CompletedBefore | poker/biPai.go:217-222 | conversely, a value complete at a point where another is not, the other completing later, is listed before it |
| Sorting.SortInts | poker/biPai.go:182 | afterwards the array is ascending and holds the same multiset of values |
| Sorting.SortedUnique | poker/biPai.go:182 | a multiset has exactly one ascending arrangement |
| Straights.IsConsecutive | poker/biPai.go:190-197 | true exactly when every element is the previous one plus 1 |
| Straights.IsStraight | poker/biPai.go:177-187 | returns `StraightOf(h)`: with a Two and an Ace, (ranks are the wheel, Five); otherwise (ranks are a run of five, highest rank) |
| Straights.ConsecutiveClimbs | poker/biPai.go:190-197 | a consecutive sequence climbs by one from its first element at every position, and conversely |
| Straights.RunSorted | poker/biPai.go:186 | five sorted ranks pass `isConsecutive` exactly when they are a run of five from the lowest |
| Straights.WheelSorted | poker/biPai.go:183-184 | five sorted ranks from Two to Ace: the four lowest are consecutive exactly when the ranks are the wheel |
| Straights.SortedEnds | poker/biPai.go:182-183 | after sorting, the first rank is the hand's lowest and the last its highest |
| Straights.StraightValue | poker/biPai.go:183-186 | the straight value is Five whenever both a Two and an Ace are present, otherwise the highest rank, whether or not the hand is a straight |
| Straights.StraightFound | poker/biPai.go:177-187 | a straight exactly when the ranks are the wheel or five consecutive ranks |
| Straights.RepeatedRankNotStraight | poker/biPai.go:186 | a rank held twice rules out a straight |
| Straights.TenToAce | poker/biPai.go:183-186 | a straight valued Ace exactly when the ranks are Ten to Ace |
| Straights.RunMembers | poker/biPai.go:186 | the ranks of a run from `lo` are exactly `lo` to `lo + 4` |
| Detectors.HighCardValue | poker/biPai.go:240-248 | returns the highest rank of the hand (`MaxRank`) |
| Detectors.IsFourOfAKind | poker/biPai.go:129-138 | returns the first rank whose fourth card the scan reaches, or (false, 0) |
| Detectors.IsThreeOfAKind | poker/biPai.go:200-209 | returns the first rank whose third card the scan reaches, or (false, 0) |
| Detectors.IsOnePair | poker/biPai.go:228-237 | returns the first rank whose second card the scan reaches, or (false, 0) |
| Detectors.IsTwoPair | poker/biPai.go:212-225 | `pairs` is the completion-ordered list of paired ranks; found iff it has two entries, valued `pairs[1] * 13 + pairs[0]` |
| Detectors.IsFlush | poker/biPai.go:162-171 | found iff some suit's counter reaches 5, then valued by `highCardValue` |
| Detectors.IsFullHouse | poker/biPai.go:141-158 | returns `FullHouseOf(h)` whatever order the tally is walked in |
| Detectors.WalkTally | poker/biPai.go:146-153 | for every visiting order: the remembered triple is the only rank counted three times, and the remembered pair is the only rank counted twice next to it (0 when none) |
| Detectors.FullHouseFromWalk | poker/biPai.go:154-157 | the outcome of the walk, accepted when both remembered ranks are non-zero, is the full-house detection of the hand |
| Detectors.RankReachingByCount | poker/biPai.go:129-138 | the scan-and-stop detectors find a rank iff some rank occurs at least k times, report such a rank in Two..Ace, and otherwise value 0 |
| Detectors.RankReachingUnique | poker/biPai.go:200-209 | on five cards, a rank held three (or four) times is the one reported, whatever the card order |
| Detectors.OnePairFirstCompleted | poker/biPai.go:228-237 | any other repeated rank is still short of two at some point where the reported pair is complete |
| Detectors.AtMostTwoPairs | poker/biPai.go:214-221 | at most two ranks reach a count of 2 on five cards |
| Detectors.TwoPairFound | poker/biPai.go:212-225 | two pair iff two different ranks each occur at least twice; otherwise value 0 |
| Detectors.TwoPairValue | poker/biPai.go:217-222 | the value is `second * 13 + first` for two paired ranks where `first` completes before `second` |
| Detectors.TwoPairOrdered | poker/biPai.go:217-222 | any scan point where one pair is complete and the other is not fixes the value as `second * 13 + first` |
| Detectors.FullHouseByCount | poker/biPai.go:141-158 | full house iff some rank other than Two occurs three times and some rank other than Two twice; value `three * 13 + pair`, else 0 |
| Detectors.FullHouseDetected | poker/biPai.go:154-155 | those counts give exactly the detection (true, `three * 13 + pair`) |
| Detectors.TwosNeverFullHouse | poker/biPai.go:154 | a triple or pair of Twos is never accepted as a full house |
| Detectors.CountShapes | poker/biPai.go:147-153 | on five cards at most one rank occurs three times, and beside it at most one twice |
| Detectors.FlushByCount | poker/biPai.go:162-171 | flush iff every card has the first card's suit; the value is then the highest rank, else 0 |
| Evaluator.StraightFlushOf | poker/biPai.go:119-126 | found iff straight and flush; valued as the straight, else 0 |
| Evaluator.StraightFlushByCount | poker/biPai.go:119-126 | straight flush iff every card has the first card's suit and the ranks are the wheel or five consecutive ranks |
| Evaluator.RoyalFlushOf | poker/biPai.go:110-115 | found iff a straight flush valued Ace; valued Ace, else 0 |
| Evaluator.EvaluateHand | poker/biPai.go:77-106 | the returned category's detector accepts with the returned value, and every stronger category's detector rejects |
| Evaluator.FirstFrom | poker/biPai.go:78-105 | the cascade from a category downwards stops at the first accepting detector, HighCard at the latest |
| Evaluator.CompareHands | poker/biPai.go:66-74 | positive iff the first hand's evaluation outranks the second's, negative iff the reverse, zero iff equal evaluations |
| Evaluator.CompareAntisymmetric | poker/biPai.go:66-74 | swapping the hands negates the result; a hand against itself gives 0 |
| Evaluator.CompareTransitive | poker/biPai.go:66-74 | wins chain: h1 beats h2 and h2 beats h3 imply h1 beats h3 |
| Evaluator.ValueInRange | poker/biPai.go:77-106 | every tie-break value lies in 0..168 (`Ace * 13 + Ace`) |
| Evaluator.CategoryIs | poker/biPai.go:77-106 | a category whose detector accepts while all stronger ones reject is the evaluation, with that detector's value |
| Evaluator.RoyalFlushIff | poker/biPai.go:110-126 | royal flush iff one suit and ranks Ten to Ace; then valued Ace |
| Evaluator.SuitedWheel | poker/biPai.go:119-126 | the suited wheel evaluates to (StraightFlush, Five), not RoyalFlush |
| Evaluator.FourOfAKindClassified | poker/biPai.go:84-86 | four cards of one rank evaluate to (FourOfAKind, that rank) |
| Evaluator.FullHouseClassified | poker/biPai.go:87-89 | three of one rank and two of another, neither Two, evaluate to (FullHouse, `three * 13 + pair`) |
| Evaluator.TwosBreakFullHouse | poker/biPai.go:96-98 | a triple and a pair where either is Two, not all one suit, evaluate to (ThreeOfAKind, triple's rank) |
| Evaluator.TwoPairClassified | poker/biPai.go:99-101 | two ranks twice each, not all one suit, evaluate to (TwoPair, `isTwoPair`'s value) |
| Evaluator.TwoPairInScanOrder | poker/biPai.go:212-225 | such a hand is valued `second * 13 + first`, where `first` completes first in the scan |
| Evaluator.TwoPairOrderMatters | poker/biPai.go:222 | a-a-b-b-c is valued `b * 13 + a`, its rearrangement b-b-a-a-c `a * 13 + b`; comparing them gives `12 * (a - b)`, never 0 |
| Evaluator.HighCardIff | poker/biPai.go:102-105 | HighCard iff all ranks differ and neither straight nor flush; then valued by the highest rank |
| Scenarios.WheelIsStraight | poker/biPai_test.go:11-21 | A-2-3-4-5 is (true, Five) |
| Scenarios.TenToAceIsStraight | poker/biPai_test.go:23-33 | A-10-J-Q-K is (true, Ace) |
| Scenarios.SevenToJackIsStraight | poker/biPai_test.go:35-45 | J-7-10-9-8 is (true, Jack) |
| Scenarios.AceSevenToTenIsNotStraight | poker/biPai_test.go:47-57 | A-7-10-9-8 is (false, Ace) |
| Scenarios.TwoAndAceValuedFive | poker/biPai.go:183-184 | A-2-7-9-J is not a straight and is still valued Five |
| Scenarios.RoyalHeartsIsRoyal | main.go:9-15 | the first hand evaluates to (RoyalFlush, Ace) |
| Scenarios.AcesAndKingsIsTwoPair | main.go:17-23 | the second hand evaluates to (TwoPair, `King * 13 + Ace`) |
| Scenarios.CommandLineComparison | main.go:25-27 | comparing them gives 9 - 2 = 7, so the first hand wins |
| Scenarios.TwosOverFives | poker/biPai.go:154 | 2-2-2-5-5 evaluates to (ThreeOfAKind, 0) |

## Left out

- Hands whose length is not five. The source does not check the length, and no error result is modelled.
  - `IsStraight` requires five cards because `isStraight` indexes the last sorted rank and, in the Two-and-Ace branch, slices the first four.
  - `IsFullHouse` requires five cards, the length the evaluator is meant for: its proof that the map walk's outcome does not depend on the visiting order rests on `CountShapes` (at most one rank counted three times, and beside it at most one counted twice), which is stated for five cards. From seven cards on the source's answer can depend on map order (A-A-A-K-K-Q-Q remembers K or Q as the pair).
  - `EvaluateHand` and `CompareHands` require five cards because they call both.
  - The other counting detectors accept any length.
- Go map iteration order is unspecified. `WalkTally` lets every order happen, by choosing any key not yet visited. The per-card scans model the map as a `map<int, int>` whose missing keys read as 0.
- `sort.Ints` is modelled by an insertion sort with the same contract (ascending order, same multiset); Go's algorithm itself is not modelled.
- `main.go` prints a message depending on the sign of the comparison. Only the comparison is modelled, not the printing.
- `Test_highCardValueV2` calls `highCardValueV2`, which the source does not define; there is nothing to model for it.
- Evaluator.CompareHands: its contract states the sign of the result and its zero case, not the exact difference. The exact differences are stated on concrete hands by `Scenarios.CommandLineComparison` and `Evaluator.TwoPairOrderMatters`.

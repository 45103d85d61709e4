# Poker bot decision logic in Dafny

This project models how a Kotlin poker bot turns a parsed game state into
a chip amount, and proves properties of that model. It covers four parts
of the bot:

- **The preflop bettor** (`PreflopBettor.kt`). This part has:
  - a range grammar ("A2s+,22+,JTo") that `parsePreflopRange` expands, in a loop, into `PreflopCard(rank, isSuited)` starting hands;
  - the mapping of two hole cards to a starting hand;
  - the seat-position resolver;
  - the table of ranges per position and depth in big blinds;
  - `makeBetPreflop`.
- **The hand-category evaluator** (`HandEvaluator.kt`). It classifies five
  cards by rank counts, flush and straight (the A-2-3-4-5 wheel included).
  For more cards it takes the strongest category over all five-card
  subsets, which a recursive `combinations` produces. Its five-card twin
  is `FlopEvaluator.kt`, and the two-card classifier is
  `preflop/PreFlopEvaluator.kt`.
- **The street betting table**, `makeBet(gameState)` in `Player.kt`.
- **The hard-coded early-position open-raise range**, `isOpenForRaise` in
  `PreFlopEvaluator.kt`.

Modules, one per file:

- `KotlinRuntime` (kotlin_runtime.dfy) holds the Kotlin library behaviour the code relies on:
  - exceptions as `Result`;
  - truncating `/` and `%`;
  - `indexOf`, `trim`, `endsWith`, `removeSuffix` and `split`;
  - a throwing `map` (`Collect`) and a throwing loop over a list (`FlatMap`).
- `Game` (game.dfy) holds the data of `GameState.kt` and the `HandType` categories.
- `HandFeatures`, `HandEvaluator`, `FlopEvaluator` and `PreflopCategory` model the evaluators.
- `PreFlopEvaluator` models `isOpenForRaise`.
- `PreflopRange` models the range grammar and the hole-card mapping.
- `PreflopBettor` models positions, `areHandsInRange`, the range table and `makeBetPreflop`.
- `PlayerBet` models `makeBet(gameState)`.

How the Kotlin code is carried over:

- **Exceptions.** Every Kotlin exception becomes an `Err` value that
  names its kind: an index out of bounds, a division by zero, an
  "Unknown rank" error, `maxBy` on an empty list, or a failed `require`.
  The model follows the order in which the code would throw.
- **`parsePreflopRange` is a method with loops.** It appends to a list
  inside a `for` loop over the parts and a `downTo` loop over ranks.
  The model writes it as a method with those loops. The method is proved
  equal to the function `ParseRange`, and the lemmas state their
  properties about `ParseRange`.
- **The rest is pure.** Everything else in the core is made of
  expressions in Kotlin, so it is modelled as functions and lemmas.
- **Two rank alphabets.** Both stay as the code has them:
  - The evaluators (`HandEvaluator.kt:34`, `FlopEvaluator.kt:14`) know the ranks `"2"`..`"10"`, `J`, `Q`, `K`, `A`. Any other rank, `"T"` included, is an "Unknown rank" error.
  - The range code (`PreflopBettor.kt:89,145`) knows `A`..`2` with `"T"` for ten. A card ranked `"10"` forms no starting hand there.
  - `isOpenForRaise` orders ranks by a list that spells ten `"10"`, but looks them up in a set that spells it `"T"`. A ten spelled `"10"` therefore never opens (`TenNeverInRange`). A ten spelled `"T"` matches the set's entries that contain `T`.
- **`makeBetPreflop` is never called by `makeBet(gameState)`.** The two
  policies are modelled separately.
- **Missing commas in the range table.** The blinds' rows at 15, 10 and fewer big blinds contain
  `"Q9s+J9s+"` and `"Q2s+J2s+"` (`PreflopBettor.kt:132-134`). After the
  suffixes are stripped, these parts leave a six-character body, so they
  name no hand at all. The model keeps the strings as written and proves
  that the two parts contribute nothing.
- **The suited wheel is a royal flush.** The code reports a suited
  A-2-3-4-5 as `ROYAL_FLUSH`, since its highest value is 14, not as a
  straight flush. The model follows the code.
- **`makeBet(gameState)` evaluates the hand first.** It does so before it
  looks at `requiredCall`. An unknown rank or a hand of 0, 1, 3 or 4
  cards therefore throws even when nothing is to be called.
- **Player list.** `GameState.players` is declared as a list of
  `PlayerDecision`, but every consumer reads `Player` fields. The model
  holds a sequence of `Player`.
- **Category order.** The `HandType` enum is not part of this model. Its
  `strength` order is taken to be the order of the decision chain at
  `HandEvaluator.kt:47-58`, from HIGH_CARD (0) to ROYAL_FLUSH (9).
- **The 1.5 factor.** `(minimum_raise * 1.5).toInt()` is computed as an
  exact `Double` and truncates toward zero. It is modelled as the
  truncating quotient of the unbounded `3 * minimum_raise` by 2. For a
  non-negative raise that is `(3 * m) / 2`.

Source paths in the table are relative to the repository root.

## Model

| member | source | states |
|---|---|---|
| KotlinRuntime.Collect | src/main/kotlin/poker/player/kotlin/HandEvaluator.kt:23-24 | mapping a throwing call over a list succeeds iff every call does, with the results in order; otherwise it raises the first failure |
| KotlinRuntime.Extend | src/main/kotlin/poker/player/kotlin/PreflopBettor.kt:148 | appending a loop's output to `result` keeps the earlier entries in front and passes a failure on unchanged |
| KotlinRuntime.FlatMapMeaning | src/main/kotlin/poker/player/kotlin/PreflopBettor.kt:152-196 | a loop over parts fails iff some part fails; otherwise its output holds exactly the entries of the parts' outputs |
| KotlinRuntime.FlatMapAppend | src/main/kotlin/poker/player/kotlin/PreflopBettor.kt:152-196 | the loop over `a + b` is the loop over `a` followed by the loop over `b`, unless `a` already fails |
| KotlinRuntime.DivRemNonNegative | src/main/kotlin/poker/player/kotlin/PreflopBettor.kt:23 | for a non-negative dividend and a positive divisor, Kotlin's truncating `/` and `%` agree with Euclidean division |
| KotlinRuntime.IndexOf | src/main/kotlin/poker/player/kotlin/PreflopBettor.kt:90-91 | `indexOf` is -1 iff the element is absent; otherwise it is the position of the first occurrence |
| KotlinRuntime.RemoveSuffix | src/main/kotlin/poker/player/kotlin/PreflopBettor.kt:163 | `removeSuffix` strips the suffix exactly when the string ends with it, and otherwise leaves the string unchanged |
| KotlinRuntime.Trim | src/main/kotlin/poker/player/kotlin/PreflopBettor.kt:153 | `trim` gives a slice of the string with only whitespace cut before and after it, and the slice neither starts nor ends with whitespace. This fixes the result. An already trimmed string is unchanged |
| KotlinRuntime.Split | src/main/kotlin/poker/player/kotlin/PreflopBettor.kt:152 | `split(",")` yields at least one part, and no part contains the separator |
| KotlinRuntime.JoinSplit | src/main/kotlin/poker/player/kotlin/PreflopBettor.kt:152 | joining the parts of `split` with the separator gives back the string |
| KotlinRuntime.SplitJoin | src/main/kotlin/poker/player/kotlin/PreflopBettor.kt:152 | splitting parts that are joined and free of the separator gives back the parts |
| KotlinRuntime.SplitAppend | src/main/kotlin/poker/player/kotlin/PreflopBettor.kt:152 | splitting `s,t` gives the parts of `s` followed by the parts of `t` |
| KotlinRuntime.MapPermutation | src/main/kotlin/poker/player/kotlin/HandEvaluator.kt:36-37 | mapping rearranged cards gives a rearrangement of the mapped values |
| Game.PlayerInAction | src/main/kotlin/poker/player/kotlin/PreflopBettor.kt:13 | `players.getOrNull(in_action)` is present iff the index is in range, and then it is a player of the list |
| Game.Strength | src/main/kotlin/poker/player/kotlin/HandEvaluator.kt:47-58 | the strength of a category is at most 9; it is 0 exactly for HIGH_CARD and 9 exactly for ROYAL_FLUSH |
| Game.StrengthInjective | src/main/kotlin/poker/player/kotlin/HandEvaluator.kt:25 | two categories have the same strength iff they are the same, so `maxBy { strength }` picks a category and not a tie |
| HandFeatures.RankValue | src/main/kotlin/poker/player/kotlin/HandEvaluator.kt:31-35 | a rank has a value iff it is one of the thirteen names of `rankMap`, and every value lies in 2..14 |
| HandFeatures.RankValues | src/main/kotlin/poker/player/kotlin/HandEvaluator.kt:36 | the cards' values are found iff every rank is known, and then they are the values card by card |
| HandFeatures.RankValuesFirstUnknown | src/main/kotlin/poker/player/kotlin/HandEvaluator.kt:36 | a failure is the "Unknown rank" error of the first card whose rank is unknown; every earlier card is known |
| HandFeatures.RankValuesUnknownCard | src/main/kotlin/poker/player/kotlin/FlopEvaluator.kt:16 | a failure names the rank of a card of the hand that `rankMap` lacks |
| HandFeatures.SortAsc | src/main/kotlin/poker/player/kotlin/HandEvaluator.kt:42 | `sorted()` returns an ascending rearrangement of its input |
| HandFeatures.SortDesc | src/main/kotlin/poker/player/kotlin/HandEvaluator.kt:39 | `sortedDescending()` returns a descending rearrangement of its input |
| HandFeatures.SortedUnique | src/main/kotlin/poker/player/kotlin/HandEvaluator.kt:42 | two ascending rearrangements of the same values are equal, so the sorted ranks depend only on which values occur, and how often |
| HandFeatures.SortAscPermutation | src/main/kotlin/poker/player/kotlin/HandEvaluator.kt:42 | rearranged input gives the same sorted ranks |
| HandFeatures.Distinct | src/main/kotlin/poker/player/kotlin/HandEvaluator.kt:39 | the keys of `groupingBy` are the values that occur, each once |
| HandFeatures.NoDuplicatesOnce | src/main/kotlin/poker/player/kotlin/HandEvaluator.kt:39 | a value occurs at most once among the keys, exactly when it occurs in the input |
| HandFeatures.CountsPermutation | src/main/kotlin/poker/player/kotlin/HandEvaluator.kt:39 | rearranged input gives a rearrangement of the counts per value |
| HandFeatures.RankCountsPermutation | src/main/kotlin/poker/player/kotlin/HandEvaluator.kt:39 | rearranged input gives the same sorted rank counts |
| HandFeatures.RankCountsShape | src/main/kotlin/poker/player/kotlin/HandEvaluator.kt:39 | a non-empty hand has at least one count, so `rankCounts[0]` exists; a single count is the size of the hand |
| HandFeatures.RankCountsBounds | src/main/kotlin/poker/player/kotlin/HandEvaluator.kt:39 | every count is at least 1 and at most the number of cards |
| HandFeatures.ConsecutiveOffsets | src/main/kotlin/poker/player/kotlin/HandEvaluator.kt:43 | sorted ranks whose neighbours differ by one each sit at the first rank plus their position |
| HandFeatures.StraightNoDuplicates | src/main/kotlin/poker/player/kotlin/HandEvaluator.kt:43-44 | a straight, the wheel included, repeats no value |
| HandFeatures.StraightHasNoPairs | src/main/kotlin/poker/player/kotlin/HandEvaluator.kt:39-44 | the top rank count of a straight is 1 |
| HandFeatures.NoRepeatsCountsOne | src/main/kotlin/poker/player/kotlin/HandEvaluator.kt:39 | when no value repeats, the top rank count is 1 |
| HandEvaluator.CombinationsCount | src/main/kotlin/poker/player/kotlin/HandEvaluator.kt:62-70 | `combinations(k)` returns C(n, k) lists |
| HandEvaluator.ChoosePositive | src/main/kotlin/poker/player/kotlin/HandEvaluator.kt:62-70 | C(n, k) is positive iff k <= n |
| HandEvaluator.CombinationsEmpty | src/main/kotlin/poker/player/kotlin/HandEvaluator.kt:62-70 | `combinations(k)` is empty iff the list has fewer than k elements |
| HandEvaluator.CombinationsLength | src/main/kotlin/poker/player/kotlin/HandEvaluator.kt:62-70 | every combination has exactly k elements |
| HandEvaluator.SplitMember | src/main/kotlin/poker/player/kotlin/HandEvaluator.kt:65-69 | a combination either starts with the head followed by a combination of the rest, or is a combination of the rest |
| HandEvaluator.CombinationsSplit | src/main/kotlin/poker/player/kotlin/HandEvaluator.kt:65-69 | the combinations with the head come first, followed by those without it |
| HandEvaluator.SelectionIsCombination | src/main/kotlin/poker/player/kotlin/HandEvaluator.kt:62-70 | the elements at any increasing list of positions, in input order, form one of the combinations |
| HandEvaluator.CombinationIsSelection | src/main/kotlin/poker/player/kotlin/HandEvaluator.kt:62-70 | every combination is the elements at some k increasing positions, so it keeps input order |
| HandEvaluator.PickFromHead | src/main/kotlin/poker/player/kotlin/HandEvaluator.kt:65-67 | a selection that takes the head is the head followed by a selection from the rest |
| HandEvaluator.PickFromTail | src/main/kotlin/poker/player/kotlin/HandEvaluator.kt:68 | a selection that skips the head is a selection from the rest |
| HandEvaluator.EvaluateFiveCardHand | src/main/kotlin/poker/player/kotlin/HandEvaluator.kt:29-59 | five cards are classified iff every rank is known, and then by their values and whether they are suited alike; otherwise the error names a card's unknown rank |
| HandEvaluator.DecideCategories | src/main/kotlin/poker/player/kotlin/HandEvaluator.kt:47-58 | the first-match `when` chain, case by case: each category holds exactly under its own condition and the failure of every earlier one |
| HandEvaluator.FiveCardCategories | src/main/kotlin/poker/player/kotlin/HandEvaluator.kt:39-58 | the same in terms of the sorted values and rank counts: four of a kind iff the top count is 4, full house iff the counts begin [3, 2], two pair iff they begin [2, 2], royal flush iff a suited straight tops at 14, and so on |
| HandEvaluator.FullHouseCategory | src/main/kotlin/poker/player/kotlin/HandEvaluator.kt:50-53 | FULL_HOUSE iff the counts begin [3, 2]; counts [3, 1, 1], unsuited, are THREE_OF_A_KIND |
| HandEvaluator.ThreeWithKickers | src/main/kotlin/poker/player/kotlin/HandEvaluator.kt:53 | trips with two different kickers, unsuited, are THREE_OF_A_KIND |
| HandEvaluator.SuitedWheelIsRoyal | src/main/kotlin/poker/player/kotlin/HandEvaluator.kt:43-47 | a suited A-2-3-4-5 is reported as ROYAL_FLUSH |
| HandEvaluator.FiveCardPermutation | src/main/kotlin/poker/player/kotlin/HandEvaluator.kt:36-45 | rearranging the five cards changes neither whether they are classified nor their category |
| HandEvaluator.CategoryPermutation | src/main/kotlin/poker/player/kotlin/HandEvaluator.kt:39-58 | the category depends only on which values occur, and how often |
| HandEvaluator.SameElementsPermutation | src/main/kotlin/poker/player/kotlin/HandEvaluator.kt:36-41 | rearranged cards have the same known ranks and the same suit set |
| HandEvaluator.EvaluateEach | src/main/kotlin/poker/player/kotlin/HandEvaluator.kt:24 | `map { evaluateFiveCardHand(it) }` evaluates each combination in order |
| HandEvaluator.MaxByStrength | src/main/kotlin/poker/player/kotlin/HandEvaluator.kt:25 | `maxBy { strength }` of a non-empty list is one of its elements, and no element is stronger |
| HandEvaluator.EvaluateBestHand | src/main/kotlin/poker/player/kotlin/HandEvaluator.kt:20-26 | with fewer than five cards there is no subset, and `maxBy` throws NoSuchElementException |
| HandEvaluator.EvaluatePreFlopHand | src/main/kotlin/poker/player/kotlin/HandEvaluator.kt:12-18 | two cards are a PAIR iff their rank strings are equal, and otherwise HIGH_CARD; suits play no part |
| HandEvaluator.EvaluateHand | src/main/kotlin/poker/player/kotlin/HandEvaluator.kt:7-10 | two cards are PAIR or HIGH_CARD by their ranks; 0, 1, 3 or 4 cards throw NoSuchElementException |
| HandEvaluator.FiveWith | src/main/kotlin/poker/player/kotlin/HandEvaluator.kt:21 | among five or more cards, any card lies in some five-card selection |
| HandEvaluator.BestHandDefined | src/main/kotlin/poker/player/kotlin/HandEvaluator.kt:20-26 | the best hand is found iff there are at least five cards and every rank is known; a failure is either `maxBy` on no subsets or an unknown rank of a card |
| HandEvaluator.CombinationCards | src/main/kotlin/poker/player/kotlin/HandEvaluator.kt:21 | every card of a five-card combination is one of the input cards |
| HandEvaluator.KnownRanksGiveBestHand | src/main/kotlin/poker/player/kotlin/HandEvaluator.kt:20-26 | five or more cards of known ranks always give a best hand |
| HandEvaluator.BestHandNeedsKnownRanks | src/main/kotlin/poker/player/kotlin/HandEvaluator.kt:20-26 | a best hand is found only when every card's rank is known |
| HandEvaluator.BestHandCardKnown | src/main/kotlin/poker/player/kotlin/HandEvaluator.kt:21-24 | when a best hand is found, each card's rank is known, because each card is in some evaluated subset |
| HandEvaluator.BestHandFailure | src/main/kotlin/poker/player/kotlin/HandEvaluator.kt:24-36 | a failure other than NoSuchElementException is the "Unknown rank" error of a card of the input |
| HandEvaluator.BestHandIsMaximal | src/main/kotlin/poker/player/kotlin/HandEvaluator.kt:20-26 | the best hand is at least as strong as every five-card subset, and equals the category of some subset |
| HandEvaluator.BestHandBoundsSelection | src/main/kotlin/poker/player/kotlin/HandEvaluator.kt:20-26 | any five cards chosen from the input classify no stronger than the best hand |
| HandEvaluator.BestHandBoundsCombination | src/main/kotlin/poker/player/kotlin/HandEvaluator.kt:21-25 | each element of `combinations(5)` classifies no stronger than the best hand |
| HandEvaluator.BestHandAttained | src/main/kotlin/poker/player/kotlin/HandEvaluator.kt:25 | the best hand is the category of some five cards of the input |
| FlopEvaluator.EvaluateHand | src/main/kotlin/poker/player/kotlin/FlopEvaluator.kt:7-41 | fails the `require` iff there are not exactly five cards; succeeds iff there are five cards of known ranks; on five cards it equals `evaluateFiveCardHand` |
| FlopEvaluator.EvaluateHandPermutation | src/main/kotlin/poker/player/kotlin/FlopEvaluator.kt:16-27 | rearranging the cards changes neither success nor the category |
| FlopEvaluator.Wheel | src/main/kotlin/poker/player/kotlin/FlopEvaluator.kt:24-36 | A-2-3-4-5 is a STRAIGHT, and when suited a ROYAL_FLUSH |
| FlopEvaluator.FullHouseOrTrips | src/main/kotlin/poker/player/kotlin/FlopEvaluator.kt:34-37 | FULL_HOUSE iff the counts begin [3, 2]; trips with two kickers, unsuited, are THREE_OF_A_KIND |
| PreflopCategory.EvaluatePreFlopHand | src/main/kotlin/poker/player/kotlin/preflop/PreFlopEvaluator.kt:7-13 | fewer than two cards throw an index error; otherwise the result is PAIR iff the first two ranks are equal, and otherwise HIGH_CARD |
| PreflopCategory.OnlyFirstTwoRanks | src/main/kotlin/poker/player/kotlin/preflop/PreFlopEvaluator.kt:8 | only the ranks of the first two cards matter: suits and further cards do not |
| PreflopCategory.AgreesWithHandEvaluator | src/main/kotlin/poker/player/kotlin/preflop/PreFlopEvaluator.kt:7-13 | on two cards it agrees with `HandEvaluator.evaluatePreFlopHand` and with `evaluateHand` |
| PreFlopEvaluator.SortByRankOrder | src/main/kotlin/poker/player/kotlin/PreFlopEvaluator.kt:17 | the stable `sortedBy` returns the two ranks in ascending `rankOrder` index, and keeps their order on a tie |
| PreFlopEvaluator.IsOpenForRaise | src/main/kotlin/poker/player/kotlin/PreFlopEvaluator.kt:5-57 | the `require` fails iff the hand does not have exactly two cards; otherwise the answer is whether the combo string is in the range |
| PreFlopEvaluator.PairChars | src/main/kotlin/poker/player/kotlin/PreFlopEvaluator.kt:28 | a pair string is in the range iff its rank is one of A, K, Q, J, T, 9, 8, 7, 6 |
| PreFlopEvaluator.TwoChars | src/main/kotlin/poker/player/kotlin/PreFlopEvaluator.kt:30-53 | a two-rank string is in the range iff its ranks, in either order, are one of the listed suited or offsuit hands |
| PreFlopEvaluator.RangeEntries | src/main/kotlin/poker/player/kotlin/PreFlopEvaluator.kt:26-54 | every entry of the range has two or three characters, and none contains a '1' |
| PreFlopEvaluator.PairCombo | src/main/kotlin/poker/player/kotlin/PreFlopEvaluator.kt:21-28 | the combo of a pocket pair is in the range iff the pair, read as a poker hand, is sixes or better |
| PreFlopEvaluator.TwoRankCombo | src/main/kotlin/poker/player/kotlin/PreFlopEvaluator.kt:22-53 | the combo of two one-character ranks is in the range iff the hand is a listed suited hand (with "s") or offsuit hand (with "o") |
| PreFlopEvaluator.TenNeverInRange | src/main/kotlin/poker/player/kotlin/PreFlopEvaluator.kt:8-28 | a hand with a card ranked "10" is never open for raise |
| PreFlopEvaluator.OpenRangeMeaning | src/main/kotlin/poker/player/kotlin/PreFlopEvaluator.kt:5-57 | for valid rank names the answer is whether the hand, in either order, is in the range read as poker hands |
| PreFlopEvaluator.OrderIndependent | src/main/kotlin/poker/player/kotlin/PreFlopEvaluator.kt:17-24 | swapping the two cards does not change the answer |
| PreFlopEvaluator.OffsuitOnlyBroadway | src/main/kotlin/poker/player/kotlin/PreFlopEvaluator.kt:50-53 | an offsuit non-pair opens iff both ranks are among A, K, Q |
| PreFlopEvaluator.TwoRankExamples | src/main/kotlin/poker/player/kotlin/PreFlopEvaluator.kt:30-53 | KQ suited opens; KT offsuit and 72 offsuit do not |
| PreFlopEvaluator.PairExamples | src/main/kotlin/poker/player/kotlin/PreFlopEvaluator.kt:28 | 99 and 66 open |
| PreFlopEvaluator.FivesFold | src/main/kotlin/poker/player/kotlin/PreFlopEvaluator.kt:28 | 55 does not open |
| PreFlopEvaluator.PairHand | src/main/kotlin/poker/player/kotlin/PreFlopEvaluator.kt:21 | a pocket pair opens iff its rank is in the pair part of the range, whatever the suits |
| PreflopRange.RankIndex | src/main/kotlin/poker/player/kotlin/PreflopBettor.kt:150 | `rankIndex` is -1 iff the string is not a rank name; otherwise `ranks` holds the string at that index |
| PreflopRange.Kind | src/main/kotlin/poker/player/kotlin/PreflopBettor.kt:157-161 | the `type` of a part is "s" iff it ends in "s" or "s+". Otherwise it is "o" iff it ends in "o" or "o+". Otherwise it is "" |
| PreflopRange.CardsAtMembers | src/main/kotlin/poker/player/kotlin/PreflopBettor.kt:172-191 | one loop step adds the pair of `ranks[i]`, never suited, or `r1` followed by `ranks[i]`: suited for "s", offsuit for "o", both for "" |
| PreflopRange.AddPart | src/main/kotlin/poker/player/kotlin/PreflopBettor.kt:153-195 | one pass of the parts loop appends that part's hands to `result`, or throws that part's exception |
| PreflopRange.AddMain | src/main/kotlin/poker/player/kotlin/PreflopBettor.kt:165-194 | once `main`, `plus` and `type` are known, the pass appends the hands the part names |
| PreflopRange.AddRun | src/main/kotlin/poker/player/kotlin/PreflopBettor.kt:169-193 | a `start downTo end` loop appends the hands for `start`, `start - 1`, ..., `end` in that order, and throws when an index lies outside `ranks` |
| PreflopRange.ParsePreflopRange | src/main/kotlin/poker/player/kotlin/PreflopBettor.kt:147-198 | the method's result, or its exception, is exactly the range's meaning `ParseRange` |
| PreflopRange.ParseParts | src/main/kotlin/poker/player/kotlin/PreflopBettor.kt:152-196 | the loop over the comma-separated parts yields their hands one part after the other, or the first part's exception |
| PreflopRange.ExpandLength | src/main/kotlin/poker/player/kotlin/PreflopBettor.kt:169-193 | a `downTo` loop over valid indices throws nothing, and adds one hand per index (two when the part has no suit letter) |
| PreflopRange.ExpandMembers | src/main/kotlin/poker/player/kotlin/PreflopBettor.kt:169-193 | a `downTo` loop over valid indices adds exactly the hands of its indices |
| PreflopRange.PartFails | src/main/kotlin/poker/player/kotlin/PreflopBettor.kt:153-193 | a part throws iff, once trimmed, it is non-empty, has a two-character body and no "+", and its second rank character is unknown; the exception is an index error |
| PreflopRange.MainFails | src/main/kotlin/poker/player/kotlin/PreflopBettor.kt:165-193 | the same for a body: only `ranks[-1]` in a one-step loop can throw, since a "+" loop from -1 runs no steps |
| PreflopRange.RangeMeaning | src/main/kotlin/poker/player/kotlin/PreflopBettor.kt:147-198 | parsing fails iff some part fails; otherwise a hand is in the result iff some part names it |
| PreflopRange.RangeConcat | src/main/kotlin/poker/player/kotlin/PreflopBettor.kt:152 | parsing "x,y" gives the hands of x followed by the hands of y, unless x throws |
| PreflopRange.PairPartNames | src/main/kotlin/poker/player/kotlin/PreflopBettor.kt:169-174 | a pair part names only pairs, from its own rank up to the aces with "+", and only its own pair without |
| PreflopRange.PairPartCovers | src/main/kotlin/poker/player/kotlin/PreflopBettor.kt:169-174 | a pair part names every pair of its run |
| PreflopRange.PairPartHas | src/main/kotlin/poker/player/kotlin/PreflopBettor.kt:169-174 | a pair part holds the pair of each rank of its run, spelled with the rank's character |
| PreflopRange.PairPartLacks | src/main/kotlin/poker/player/kotlin/PreflopBettor.kt:169-174 | a pair part holds no pair outside its run, and nothing suited |
| PreflopRange.PairPlusPart | src/main/kotlin/poker/player/kotlin/PreflopBettor.kt:169-174 | "XX+" holds as many pairs as ranks from X up to the aces, none suited; XX and AA are among them, the pair just below X is not |
| PreflopRange.SevensUp | src/main/kotlin/poker/player/kotlin/PreflopBettor.kt:147-198 | "77+" is the eight pairs from 77 to AA, unsuited; 77 and AA are in it and 66 is not |
| PreflopRange.TwoRankPartCount | src/main/kotlin/poker/player/kotlin/PreflopBettor.kt:175-193 | a suited or offsuit two-rank part holds one hand per rank from the second rank up to just below the first with "+", or the single hand without |
| PreflopRange.TwoRankPartNames | src/main/kotlin/poker/player/kotlin/PreflopBettor.kt:175-193 | a two-rank part names only hands of its first rank with a rank of its run, suited as its letter says |
| PreflopRange.TwoRankPartCovers | src/main/kotlin/poker/player/kotlin/PreflopBettor.kt:175-193 | a two-rank part names its first rank with every rank of its run |
| PreflopRange.TwoRankPartHas | src/main/kotlin/poker/player/kotlin/PreflopBettor.kt:175-193 | the hand of the first rank with any rank of the run is in the part, spelled with rank characters |
| PreflopRange.TwoRankPartOnly | src/main/kotlin/poker/player/kotlin/PreflopBettor.kt:175-193 | every hand of a two-rank part starts with its first rank and is suited as its letter says |
| PreflopRange.TwoRankPlusPart | src/main/kotlin/poker/player/kotlin/PreflopBettor.kt:175-193 | "XYs+" or "XYo+" holds one hand per rank from Y up to just below X, all starting with X, XY and X with the next rank among them |
| PreflopRange.SuitedAces | src/main/kotlin/poker/player/kotlin/PreflopBettor.kt:147-198 | "A2s+" is the twelve suited aces from A2s to AKs |
| PreflopRange.OnePart | src/main/kotlin/poker/player/kotlin/PreflopBettor.kt:152 | a range without a comma is a single part |
| PreflopRange.EmptyRange | src/main/kotlin/poker/player/kotlin/PreflopBettor.kt:152-154 | the empty range names no hand and does not throw |
| PreflopRange.LongMain | src/main/kotlin/poker/player/kotlin/PreflopBettor.kt:163-165 | a trimmed part whose body is not two characters long contributes nothing |
| PreflopRange.MissingComma | src/main/kotlin/poker/player/kotlin/PreflopBettor.kt:132-134 | the parts "Q9s+J9s+" and "Q2s+J2s+" of the blinds' rows contribute nothing |
| PreflopRange.MissingCommaShape | src/main/kotlin/poker/player/kotlin/PreflopBettor.kt:156-165 | any eight-character part shaped like two "XYs+" run together contributes nothing |
| PreflopRange.MapCardsMeaning | src/main/kotlin/poker/player/kotlin/PreflopBettor.kt:87-105 | two cards form a starting hand iff there are exactly two, with ranks in `ranks`; the hand is the higher rank first, suited only when not a pair and the suits agree |
| PreflopRange.MapCardsSymmetric | src/main/kotlin/poker/player/kotlin/PreflopBettor.kt:87-105 | the order of the two cards does not matter |
| PreflopRange.TenFormsNoHand | src/main/kotlin/poker/player/kotlin/PreflopBettor.kt:89-92 | a card ranked "10" forms no starting hand |
| PreflopBettor.BigBlindsLeftMeaning | src/main/kotlin/poker/player/kotlin/PreflopBettor.kt:21-24 | for a non-negative stack and a positive small blind, the count is the number of whole big blinds the stack covers |
| PreflopBettor.PositionPrecedence | src/main/kotlin/poker/player/kotlin/PreflopBettor.kt:26-50 | BUTTON iff in action is the dealer; the `%` by zero players throws iff neither earlier test matched; SMALL_BLIND and BIG_BLIND exactly at the seats one and two after the dealer, unless an earlier test matched |
| PreflopBettor.BlindSeats | src/main/kotlin/poker/player/kotlin/PreflopBettor.kt:46-47 | at three or more seats, the seat after the dealer is the small blind and the one two after is the big blind, unless it is the cutoff seat |
| PreflopBettor.NextSeats | src/main/kotlin/poker/player/kotlin/PreflopBettor.kt:46-47 | the two seats after the dealer wrap around the table, and differ from each other and from the dealer |
| PreflopBettor.HeadsUp | src/main/kotlin/poker/player/kotlin/PreflopBettor.kt:41-50 | with two players: the dealer is the button, seat 0 otherwise the cutoff, and the other seat the small blind; no one is the big blind |
| PreflopBettor.AreHandsInRangeMeaning | src/main/kotlin/poker/player/kotlin/PreflopBettor.kt:73-85 | true iff the player in action holds exactly two cards forming a starting hand the parsed range contains; it throws iff two cards are held and the range throws |
| PreflopBettor.TensNeverInRange | src/main/kotlin/poker/player/kotlin/PreflopBettor.kt:73-105 | hole cards with a "10" are never in range |
| PreflopBettor.EmptyRangeNeverHolds | src/main/kotlin/poker/player/kotlin/PreflopBettor.kt:126 | the empty range holds no hand |
| PreflopBettor.MakeBetAmount | src/main/kotlin/poker/player/kotlin/PreflopBettor.kt:107-138 | the table throws iff the chosen range check throws; the answer is 0 without a hand of the range, and with one the minimum raise for the cutoff's and blinds' deep rows (20 big blinds or more) and the stack otherwise |
| PreflopBettor.CutoffShortFolds | src/main/kotlin/poker/player/kotlin/PreflopBettor.kt:126 | the cutoff with fewer than 5 big blinds always answers 0 |
| PreflopBettor.MakeBetNoPlayer | src/main/kotlin/poker/player/kotlin/PreflopBettor.kt:109 | without a player in action `players[in_action]` throws an index error |
| PreflopBettor.MakeBetPreflopAmount | src/main/kotlin/poker/player/kotlin/PreflopBettor.kt:52-71 | -1 after the flop or when facing a bet or raise; -1 above 15 big blinds; otherwise 0 or the whole stack, never the minimum raise |
| PreflopBettor.MakeBetPreflopFails | src/main/kotlin/poker/player/kotlin/PreflopBettor.kt:52-71 | a failure happens only preflop and with no bet to face; when the position cannot be worked out, its failure is the one reported |
| PlayerBet.TimesOneAndAHalfMeaning | src/main/kotlin/poker/player/kotlin/Player.kt:44-83 | for a non-negative raise, the truncated 1.5 times is `(3 * m) / 2`, lies between m and 2m, and is the largest value whose double does not exceed 3m |
| PlayerBet.TimesOneAndAHalfNegative | src/main/kotlin/poker/player/kotlin/Player.kt:44 | for every negative raise the factor truncates toward zero. The result is minus that of the positive raise, it is the smallest value whose double is at least 3m, and it lies between 2m and m |
| PlayerBet.MakeBetFails | src/main/kotlin/poker/player/kotlin/Player.kt:22-33 | `makeBet` throws iff there is no player in action or evaluating the community and hole cards throws, whatever is to be called |
| PlayerBet.NothingToCall | src/main/kotlin/poker/player/kotlin/Player.kt:31-76 | with nothing to call the answer is the minimum raise on the flop and 0 on every other street |
| PlayerBet.PreflopTwoCards | src/main/kotlin/poker/player/kotlin/Player.kt:36-43 | preflop with two hole cards and a call to make, a pair answers the call plus the minimum raise, and anything else the call |
| PlayerBet.MonsterHandsAllIn | src/main/kotlin/poker/player/kotlin/Player.kt:47-88 | FOUR_OF_A_KIND, STRAIGHT_FLUSH and ROYAL_FLUSH answer the stack on every street |
| PlayerBet.FullHouseAmount | src/main/kotlin/poker/player/kotlin/Player.kt:47-85 | FULL_HOUSE answers the stack preflop, and the call plus twice the minimum raise later |
| PlayerBet.WeakHandsFold | src/main/kotlin/poker/player/kotlin/Player.kt:61-80 | HIGH_CARD answers 0 from the flop on, and PAIR answers 0 after the flop |
| PlayerBet.NotClamped | src/main/kotlin/poker/player/kotlin/Player.kt:40-85 | below the all-in categories the answer does not depend on the stack, so it is never clamped to it |
| PlayerBet.AmountMonotone | src/main/kotlin/poker/player/kotlin/Player.kt:40-89 | within a street, when the raise is non-negative and the stack covers the call plus twice the raise, the amount never falls as the category rises |
| PlayerBet.AmountRange | src/main/kotlin/poker/player/kotlin/Player.kt:40-89 | the amount band of each strength on each street, from 0 up to the stack |

## Left out

- The HTTP layer (`Application.kt`) and JSON parsing (`GameStateParser.kt`) are not part of this model. The game state is an already-parsed value.
- The `PlayerDecision` wrapper (`Player.kt:7-20`) is not modelled: it delegates to the parser, does nothing at showdown and returns a constant version string.
- The private `hasHoleCardsIn` helper (`PreflopBettor.kt:36-39`) is not modelled: nothing calls it.
- The `HandType` enum of the `handtype` package is not part of this model. Its strength order is assumed to be the order of the decision chain.
- Kotlin's 32-bit `Int` is modelled as an unbounded integer, so overflow in `requiredCall`, in the table's sums and in `minimum_raise * 2` is not captured.
- TimesOneAndAHalf: does not model the clamping of `toInt()` to `Int.MAX_VALUE` or `Int.MIN_VALUE`. The source computes the product as a `Double`, which is exact, so the result only differs when the magnitude of `minimum_raise` exceeds 1431655765.
- No other floating point occurs in the core.
- The error text of `error("Unknown rank ...")` and of the two `require` calls is kept only as the rank or the message string. Exception classes are modelled only as far as they differ: index, division, unknown rank, empty `maxBy`, failed `require`.
- The mutable list that `parsePreflopRange` builds is a sequence that the method reassigns. Sharing of that list is not captured, but nothing else holds a reference to it.
- Test expectations that the code does not meet are not turned into properties. `MakeBetTest.kt` targets a strength-threshold variant. The test helpers `generatePocketPairs`, `expandSingle`, `expandPlus` and `parseHandRange` do not exist in `PreflopBettor.kt`.

/** `FlopEvaluator` (FlopEvaluator.kt): the category of exactly five cards.
    Its rank map, features and `when` chain repeat those of
    `evaluateFiveCardHand` line for line, so the model shares
    HandEvaluator.Category; what is its own is the size requirement. */
module FlopEvaluator {
  import opened KotlinRuntime
  import opened Game
  import opened HandFeatures
  import HandEvaluator

  const SizeMessage: string := "Hand must contain exactly 5 cards"

  /** `evaluateHand`: `require(cards.size == 5)`, then classify. */
  function EvaluateHand(cards: seq<Card>): (r: Result<HandType>)
    ensures r == Err(RequirementFailed(SizeMessage)) <==> |cards| != 5
    ensures r.Ok? <==> |cards| == 5 && AllRanksKnown(cards)
    ensures |cards| == 5 ==> r == HandEvaluator.EvaluateFiveCardHand(cards)
  {
    if |cards| != 5 then Err(RequirementFailed(SizeMessage))
    else
      RankValuesUnknownCard(cards);
      match RankValues(cards)
      case Err(f) => Err(f)
      case Ok(ranks) => Ok(HandEvaluator.Category(ranks, IsFlush(cards)))
  }

  /** Rearranging the five cards changes neither whether they can be
      classified nor their category. */
  lemma EvaluateHandPermutation(a: seq<Card>, b: seq<Card>)
    requires multiset(a) == multiset(b)
    ensures EvaluateHand(a).Ok? == EvaluateHand(b).Ok?
    ensures EvaluateHand(a).Ok? ==> EvaluateHand(a) == EvaluateHand(b)
  {
    assert |a| == |multiset(a)| == |multiset(b)| == |b|;
    if |a| == 5 {
      HandEvaluator.FiveCardPermutation(a, b);
    }
  }

  /** The wheel counts as a straight, and a suited wheel is reported as
      ROYAL_FLUSH; unsuited it is a STRAIGHT. */
  lemma Wheel(cards: seq<Card>)
    requires |cards| == 5 && AllRanksKnown(cards)
    requires SortAsc(Values(cards)) == [2, 3, 4, 5, 14]
    ensures EvaluateHand(cards) == Ok(if IsFlush(cards) then RoyalFlush else Straight)
  {
    EvaluateKnown(cards);
    HandEvaluator.FiveCardCategories(Values(cards), IsFlush(cards));
  }

  /** FULL_HOUSE needs the counts to start [3, 2]; three of a kind with two
      different kickers, unsuited, is THREE_OF_A_KIND. */
  lemma FullHouseOrTrips(cards: seq<Card>)
    requires |cards| == 5 && AllRanksKnown(cards)
    ensures var rc := RankCounts(Values(cards));
            |rc| >= 1
            && (EvaluateHand(cards) == Ok(FullHouse) <==> rc[0] == 3 && |rc| >= 2 && rc[1] == 2)
            && (rc == [3, 1, 1] && !IsFlush(cards) ==> EvaluateHand(cards) == Ok(ThreeOfAKind))
  {
    EvaluateKnown(cards);
    HandEvaluator.FullHouseCategory(Values(cards), IsFlush(cards));
  }

  /** Five cards of known ranks are classified by HandEvaluator.Category. */
  lemma EvaluateKnown(cards: seq<Card>)
    requires |cards| == 5 && AllRanksKnown(cards)
    ensures EvaluateHand(cards) == Ok(HandEvaluator.Category(Values(cards), IsFlush(cards)))
  {
  }
}

/** `preflop.PreFlopEvaluator` (preflop/PreFlopEvaluator.kt): a two-card
    category from the first two rank strings alone. */
module PreflopCategory {
  import opened KotlinRuntime
  import opened Game
  import HandEvaluator

  /** `evaluatePreFlopHand`: PAIR when the first two ranks are equal,
      HIGH_CARD otherwise; fewer than two cards is an index error. */
  function EvaluatePreFlopHand(cards: seq<Card>): (r: Result<HandType>)
    ensures r.Err? <==> |cards| < 2
    ensures r.Err? ==> r.failure == IndexOutOfBounds
    ensures r.Ok? ==> (r.value == Pair <==> cards[0].rank == cards[1].rank)
    ensures r.Ok? ==> r.value == Pair || r.value == HighCard
  {
    if |cards| < 2 then Err(IndexOutOfBounds)
    else if cards[0].rank == cards[1].rank then Ok(Pair)
    else Ok(HighCard)
  }

  /** Suits never matter, and nothing after the second card is read. */
  lemma OnlyFirstTwoRanks(a: seq<Card>, b: seq<Card>)
    requires |a| >= 2 && |b| >= 2
    requires a[0].rank == b[0].rank && a[1].rank == b[1].rank
    ensures EvaluatePreFlopHand(a) == EvaluatePreFlopHand(b)
  {
  }

  /** On two cards it agrees with HandEvaluator's two-card rule. */
  lemma AgreesWithHandEvaluator(cards: seq<Card>)
    requires |cards| == 2
    ensures EvaluatePreFlopHand(cards) == Ok(HandEvaluator.EvaluatePreFlopHand(cards))
    ensures EvaluatePreFlopHand(cards) == HandEvaluator.EvaluateHand(cards)
  {
  }
}

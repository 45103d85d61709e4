/** The bot's answer to a bet request (`makeBet(gameState)` in Player.kt):
    the category of the best hand the player can make from the community
    cards and its own hole cards, mapped by a table per street to a chip
    amount. The street is told by the number of community cards. */
module PlayerBet {
  import opened KotlinRuntime
  import opened Game
  import HandEvaluator

  /** Fewer than three community cards, exactly three, or more. */
  datatype Street = BeforeFlop | OnFlop | AfterFlop

  function StreetOf(communityCards: int): Street {
    if communityCards < 3 then BeforeFlop
    else if communityCards == 3 then OnFlop
    else AfterFlop
  }

  /** `(m * 1.5).toInt()`: the product is exact in a `Double` for every
      `Int` and `toInt` truncates toward zero, so this is the truncating
      quotient of the unbounded `3 * m` by 2. */
  function TimesOneAndAHalf(m: int): int {
    Div(3 * m, 2)
  }

  /** For a non-negative minimum raise this is the floor of one and a half
      times it, never less than the raise itself. */
  lemma TimesOneAndAHalfMeaning(m: int)
    requires m >= 0
    ensures TimesOneAndAHalf(m) == (3 * m) / 2
    ensures 2 * TimesOneAndAHalf(m) <= 3 * m < 2 * TimesOneAndAHalf(m) + 2
    ensures m <= TimesOneAndAHalf(m) <= 2 * m
  {
    DivRemNonNegative(3 * m, 2);
  }

  /** For a negative one it rounds toward zero, not down: the result
      mirrors that of the positive raise (-3 gives -4, not -5), and it is
      never below the raise's one and a half times. */
  lemma TimesOneAndAHalfNegative(m: int)
    requires m < 0
    ensures TimesOneAndAHalf(m) == -TimesOneAndAHalf(-m)
    ensures 2 * TimesOneAndAHalf(m) - 2 < 3 * m <= 2 * TimesOneAndAHalf(m)
    ensures 2 * m <= TimesOneAndAHalf(m) <= m
  {
    TimesOneAndAHalfMeaning(-m);
  }

  /** The `when (handType)` table of one street, for a call that costs
      something. */
  function Amount(street: Street, h: HandType, requiredCall: int, minimumRaise: int, stack: int): int {
    var m := minimumRaise;
    match street
    case BeforeFlop =>
      (match h
       case HighCard => requiredCall
       case Pair => requiredCall + m
       case TwoPair => requiredCall + m
       case ThreeOfAKind => requiredCall + TimesOneAndAHalf(m)
       case Straight => requiredCall + m * 2
       case Flush => requiredCall + m * 2
       case FullHouse | FourOfAKind | StraightFlush | RoyalFlush => stack)
    case OnFlop =>
      (match h
       case HighCard => 0
       case Pair => requiredCall
       case TwoPair => requiredCall
       case ThreeOfAKind => requiredCall + m
       case Straight => requiredCall + TimesOneAndAHalf(m)
       case Flush => requiredCall + TimesOneAndAHalf(m)
       case FullHouse => requiredCall + m * 2
       case FourOfAKind | StraightFlush | RoyalFlush => stack)
    case AfterFlop =>
      (match h
       case HighCard => 0
       case Pair => 0
       case TwoPair => requiredCall
       case ThreeOfAKind => requiredCall + m
       case Straight => requiredCall + TimesOneAndAHalf(m)
       case Flush => requiredCall + m * 2
       case FullHouse => requiredCall + m * 2
       case FourOfAKind | StraightFlush | RoyalFlush => stack)
  }

  /** The player's hole cards, or none. */
  function MyCards(me: Player): seq<Card> {
    match me.holeCards
    case None => []
    case Some(cards) => cards
  }

  /** What the hand is evaluated from: the community cards followed by the
      hole cards. */
  function Cards(gs: GameState, me: Player): seq<Card> {
    gs.communityCards + MyCards(me)
  }

  /** `makeBet(gameState)`. `players[in_action]` throws when out of range,
      and the hand is evaluated before anything else is decided, so an
      evaluation that throws does so even when nothing is to be called.
      With nothing to call the answer is 0, except on the flop, where it
      is the minimum raise. */
  function MakeBet(gs: GameState): Result<int> {
    if !(0 <= gs.inAction < |gs.players|) then Err(IndexOutOfBounds)
    else
      var me := gs.players[gs.inAction];
      var requiredCall := gs.currentBuyIn - me.bet;
      match HandEvaluator.EvaluateHand(Cards(gs, me))
      case Err(f) => Err(f)
      case Ok(handType) =>
        var street := StreetOf(|gs.communityCards|);
        if requiredCall <= 0 then Ok(if street == OnFlop then gs.minimumRaise else 0)
        else Ok(Amount(street, handType, requiredCall, gs.minimumRaise, me.stack))
  }

  /** `makeBet` fails exactly when there is no player in action or the
      evaluation of its cards fails, whatever is to be called. */
  lemma MakeBetFails(gs: GameState)
    ensures MakeBet(gs).Err? <==>
              !(0 <= gs.inAction < |gs.players|)
              || HandEvaluator.EvaluateHand(Cards(gs, gs.players[gs.inAction])).Err?
  {
  }

  /** With nothing to call the answer is the minimum raise on the flop and
      0 on every other street, whatever the hand. */
  lemma NothingToCall(gs: GameState)
    requires 0 <= gs.inAction < |gs.players|
    requires gs.currentBuyIn - gs.players[gs.inAction].bet <= 0
    requires HandEvaluator.EvaluateHand(Cards(gs, gs.players[gs.inAction])).Ok?
    ensures MakeBet(gs) == Ok(if |gs.communityCards| == 3 then gs.minimumRaise else 0)
  {
  }

  /** Before the flop with no community card and two hole cards, only a
      high card (just calling) and a pair (calling and raising the
      minimum) can come up: the evaluator's two-card rule decides. */
  lemma PreflopTwoCards(gs: GameState)
    requires 0 <= gs.inAction < |gs.players| && gs.communityCards == []
    requires var me := gs.players[gs.inAction];
      me.holeCards.Some? && |me.holeCards.value| == 2
    requires gs.currentBuyIn - gs.players[gs.inAction].bet > 0
    ensures var me := gs.players[gs.inAction];
      var hole, call := me.holeCards.value, gs.currentBuyIn - me.bet;
      MakeBet(gs) == Ok(if hole[0].rank == hole[1].rank then call + gs.minimumRaise else call)
  {
    var me := gs.players[gs.inAction];
    assert Cards(gs, me) == me.holeCards.value;
  }

  /** Four of a kind, a straight flush and a royal flush go all in on every
      street: the answer is exactly the stack. */
  lemma MonsterHandsAllIn(street: Street, h: HandType, call: int, m: int, stack: int)
    requires h == FourOfAKind || h == StraightFlush || h == RoyalFlush
    ensures Amount(street, h, call, m, stack) == stack
  {
  }

  /** A full house goes all in before the flop and raises twice the
      minimum from the flop on. */
  lemma FullHouseAmount(street: Street, call: int, m: int, stack: int)
    ensures Amount(street, FullHouse, call, m, stack) == if street == BeforeFlop then stack else call + 2 * m
  {
  }

  /** From the flop on a high card folds (0); after the flop a pair folds
      too. */
  lemma WeakHandsFold(street: Street, h: HandType, call: int, m: int, stack: int)
    requires street != BeforeFlop
    requires h == HighCard || (street == AfterFlop && h == Pair)
    ensures Amount(street, h, call, m, stack) == 0
  {
  }

  /** Only the all-in rows depend on the stack: every other amount is the
      call plus a multiple of the minimum raise, and it is not clamped to
      the stack, so it can exceed it. */
  lemma NotClamped(street: Street, h: HandType, call: int, m: int, stack: int, stack': int)
    requires Strength(h) < Strength(FullHouse) || (Strength(h) == Strength(FullHouse) && street != BeforeFlop)
    ensures Amount(street, h, call, m, stack) == Amount(street, h, call, m, stack')
  {
  }

  /** Within a street, a stronger category never asks for less, provided
      the call is positive, the minimum raise is not negative and the
      stack covers the call plus two minimum raises. */
  lemma AmountMonotone(street: Street, a: HandType, b: HandType, call: int, m: int, stack: int)
    requires Strength(a) <= Strength(b)
    requires call > 0 && m >= 0 && stack >= call + 2 * m
    ensures Amount(street, a, call, m, stack) <= Amount(street, b, call, m, stack)
  {
    TimesOneAndAHalfMeaning(m);
    AmountRange(street, a, call, m, stack);
    AmountRange(street, b, call, m, stack);
  }

  /** Each category's amount, as a band ordered by strength: 0 and the call
      at the bottom, then call + m, call + 1.5m, call + 2m, and the stack
      at the top. */
  lemma AmountRange(street: Street, h: HandType, call: int, m: int, stack: int)
    requires call > 0 && m >= 0 && stack >= call + 2 * m
    ensures var v, s := Amount(street, h, call, m, stack), Strength(h);
      (s <= 1 ==> 0 <= v <= call + m)
      && (street == BeforeFlop && s >= 1 ==> v >= call + m)
      && (street != BeforeFlop && s >= 2 ==> v >= call)
      && (s == 2 ==> v <= call + m)
      && (s == 3 ==> call + m <= v <= call + TimesOneAndAHalf(m))
      && (s >= 3 ==> v >= call + m)
      && (s == 4 || s == 5 ==> call + TimesOneAndAHalf(m) <= v <= call + 2 * m)
      && (s >= 4 ==> v >= call + TimesOneAndAHalf(m))
      && (s == 6 ==> call + 2 * m <= v <= stack)
      && (s >= 6 ==> v >= call + 2 * m)
      && (s >= 7 ==> v == stack)
      && v <= stack
  {
    TimesOneAndAHalfMeaning(m);
  }
}

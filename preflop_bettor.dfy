/** `PreflopBettor` (PreflopBettor.kt): a short-stack push-or-fold policy
    for the first betting round. The seat of the player in action is named
    a position, its stack is counted in big blinds, and a table keyed by
    position and depth picks a range; holding a hand of the range means
    going all in (or, deep in the cutoff and the blinds, raising the
    minimum), otherwise folding. */
module PreflopBettor {
  import opened KotlinRuntime
  import opened Game
  import opened PreflopRange

  datatype Position = Button | Cutoff | BigBlind | SmallBlind

  /** `hasOtherPlayerBetOrRaised`: the buy-in exceeds what the player in
      action has put in; false when no player is in action. */
  predicate HasOtherPlayerBetOrRaised(gs: GameState) {
    match PlayerInAction(gs)
    case None => false
    case Some(me) => gs.currentBuyIn > me.bet
  }

  /** `isPreflop`: no community card is out yet. */
  predicate IsPreflop(gs: GameState) {
    gs.communityCards == []
  }

  /** `bigBlinedsLeftForMyPlayer`: the stack in whole big blinds (twice
      the small blind), 0 when no player is in action; a zero small blind
      divides by zero. */
  function BigBlindsLeft(gs: GameState): Result<int> {
    match PlayerInAction(gs)
    case None => Ok(0)
    case Some(me) =>
      if gs.smallBlind * 2 == 0 then Err(DivisionByZero)
      else Ok(Div(me.stack, gs.smallBlind * 2))
  }

  /** For a non-negative stack and a positive small blind the count is the
      number of whole big blinds the stack covers. */
  lemma BigBlindsLeftMeaning(gs: GameState)
    requires 0 <= gs.inAction < |gs.players| && gs.players[gs.inAction].stack >= 0
    requires gs.smallBlind > 0
    ensures BigBlindsLeft(gs).Ok?
    ensures var n, bb, stack := BigBlindsLeft(gs).value, 2 * gs.smallBlind, gs.players[gs.inAction].stack;
      0 <= n && n * bb <= stack < (n + 1) * bb
  {
    var bb, stack := 2 * gs.smallBlind, gs.players[gs.inAction].stack;
    DivRemNonNegative(stack, bb);
    WholeParts(stack, bb);
  }

  /** The quotient counts the whole multiples of the divisor. */
  lemma WholeParts(a: int, b: int)
    requires a >= 0 && b > 0
    ensures 0 <= a / b && (a / b) * b <= a < (a / b + 1) * b
  {
    var q, r := a / b, a % b;
    assert a == q * b + r && 0 <= r < b;
    assert (q + 1) * b == q * b + b;
  }

  /** `isButton`. */
  predicate IsButton(gs: GameState) {
    gs.dealer == gs.inAction
  }

  /** The seat `isCutoff` calls the cutoff: two before the end of the
      list, or seat 0 at a table of two or fewer. */
  function CutoffSeat(n: int): int {
    if n > 2 then n - 2 else 0
  }

  /** `getPlayerPositionForCurrentPlayer`: the first of button, cutoff,
      small blind (the seat after the dealer), big blind (two after),
      with the cutoff for every other seat. With no players the `%`
      divides by zero, unless the button or cutoff test matched first. */
  function GetPlayerPosition(gs: GameState): Result<Position> {
    var n := |gs.players|;
    if IsButton(gs) then Ok(Button)
    else if gs.inAction == CutoffSeat(n) then Ok(Cutoff)
    else if n == 0 then Err(DivisionByZero)
    else if gs.inAction == Rem(gs.dealer + 1, n) then Ok(SmallBlind)
    else if gs.inAction == Rem(gs.dealer + 2, n) then Ok(BigBlind)
    else Ok(Cutoff)
  }

  /** The seat one or two after the dealer, counting around the table. */
  function SeatAfter(dealer: int, k: int, n: int): int
    requires n > 0
  {
    Rem(dealer + k, n)
  }

  /** Which position each seat gets, in order of precedence: the dealer's
      seat is the button; the cutoff seat is the cutoff; then the seats
      one and two after the dealer are the small and big blind; every
      other seat is the cutoff too. */
  lemma PositionPrecedence(gs: GameState)
    ensures var n := |gs.players|;
      (GetPlayerPosition(gs) == Ok(Button) <==> gs.dealer == gs.inAction)
      && (GetPlayerPosition(gs).Err? <==> n == 0 && gs.dealer != gs.inAction && gs.inAction != 0)
      && (GetPlayerPosition(gs) == Ok(SmallBlind) <==>
            n > 0 && gs.dealer != gs.inAction && gs.inAction != CutoffSeat(n)
            && gs.inAction == SeatAfter(gs.dealer, 1, n))
      && (GetPlayerPosition(gs) == Ok(BigBlind) <==>
            n > 0 && gs.dealer != gs.inAction && gs.inAction != CutoffSeat(n)
            && gs.inAction != SeatAfter(gs.dealer, 1, n) && gs.inAction == SeatAfter(gs.dealer, 2, n))
  {
  }

  /** At a table of at least three with the dealer seated, the seat after
      the dealer is the small blind and the one after that the big blind,
      unless that seat is the dealer's own or the cutoff seat. Seat
      indices wrap around. */
  lemma BlindSeats(gs: GameState)
    requires |gs.players| >= 3 && 0 <= gs.dealer < |gs.players|
    ensures var n := |gs.players|; var sb := if gs.dealer + 1 == n then 0 else gs.dealer + 1;
      gs.inAction == sb && sb != n - 2 ==> GetPlayerPosition(gs) == Ok(SmallBlind)
    ensures var n := |gs.players|; var bb := (gs.dealer + 2) % n;
      gs.inAction == bb && bb != n - 2 ==> GetPlayerPosition(gs) == Ok(BigBlind)
  {
    var n := |gs.players|;
    var sb, bb := SeatAfter(gs.dealer, 1, n), SeatAfter(gs.dealer, 2, n);
    NextSeats(gs.dealer, n);
    assert CutoffSeat(n) == n - 2;
  }

  /** The seats one and two after a seated dealer, wrapping around. */
  lemma NextSeats(dealer: int, n: int)
    requires n >= 3 && 0 <= dealer < n
    ensures SeatAfter(dealer, 1, n) == if dealer + 1 == n then 0 else dealer + 1
    ensures SeatAfter(dealer, 2, n) == (dealer + 2) % n
    ensures SeatAfter(dealer, 2, n) != dealer && SeatAfter(dealer, 2, n) != SeatAfter(dealer, 1, n)
  {
    DivRemNonNegative(dealer + 1, n);
    DivRemNonNegative(dealer + 2, n);
    Wrap(dealer + 1, n);
    Wrap(dealer + 2, n);
  }

  /** Counting at most one lap around a table of `n` seats. */
  lemma Wrap(a: int, n: int)
    requires n > 0 && 0 <= a < 2 * n
    ensures a % n == if a < n then a else a - n
  {
    var q, r := a / n, a % n;
    assert a == q * n + r && 0 <= r < n;
    assert q == 0 || q == 1;
  }

  /** Heads-up (two players) the dealer is the button and the other
      player is the cutoff when seated first and the small blind when
      seated second: there is never a big blind. */
  lemma HeadsUp(gs: GameState)
    requires |gs.players| == 2 && 0 <= gs.dealer < 2 && 0 <= gs.inAction < 2
    ensures GetPlayerPosition(gs) ==
              if gs.inAction == gs.dealer then Ok(Button)
              else if gs.inAction == 0 then Ok(Cutoff)
              else Ok(SmallBlind)
    ensures GetPlayerPosition(gs) != Ok(BigBlind)
  {
    if gs.inAction != gs.dealer && gs.inAction == 1 {
      assert gs.dealer == 0;
      assert Rem(gs.dealer + 1, 2) == 1;
    }
  }

  // ---- hand in range ----

  /** `areHandsInRange`: false without a player in action, without hole
      cards or without exactly two of them; otherwise the range is parsed
      (which may throw) and the answer is whether the cards form a hand of
      the range. */
  function AreHandsInRange(range: string, gs: GameState): Result<bool> {
    match PlayerInAction(gs)
    case None => Ok(false)
    case Some(me) =>
      match me.holeCards
      case None => Ok(false)
      case Some(hole) =>
        if |hole| != 2 then Ok(false)
        else
          var preflopCards := MapCards(hole);
          var rangeCards := ParseRange(range);
          if rangeCards.Err? then Err(rangeCards.failure)
          else Ok(preflopCards.Some? && preflopCards.value in rangeCards.value)
  }

  /** The player's two hole cards, when there are exactly two. */
  function TwoHoleCards(gs: GameState): Option<seq<Card>> {
    match PlayerInAction(gs)
    case None => None
    case Some(me) =>
      match me.holeCards
      case None => None
      case Some(hole) => if |hole| == 2 then Some(hole) else None
  }

  /** The answer is true exactly when the player in action holds two
      cards that form a starting hand the range names; it fails exactly
      when there are two such cards and the range does not parse. */
  lemma AreHandsInRangeMeaning(range: string, gs: GameState)
    ensures AreHandsInRange(range, gs) == Ok(true) <==>
              TwoHoleCards(gs).Some? && MapCards(TwoHoleCards(gs).value).Some?
              && ParseRange(range).Ok? && MapCards(TwoHoleCards(gs).value).value in ParseRange(range).value
    ensures AreHandsInRange(range, gs).Err? <==> TwoHoleCards(gs).Some? && ParseRange(range).Err?
  {
  }

  /** Two cards ranked "10" never match, whatever the range: the range
      alphabet spells a ten "T". */
  lemma TensNeverInRange(range: string, gs: GameState)
    requires TwoHoleCards(gs).Some?
    requires TwoHoleCards(gs).value[0].rank == "10" || TwoHoleCards(gs).value[1].rank == "10"
    ensures AreHandsInRange(range, gs) != Ok(true)
  {
    var hole := TwoHoleCards(gs).value;
    TenFormsNoHand(hole[0], hole[1]);
    assert hole == [hole[0], hole[1]];
  }

  /** The empty range holds nothing. */
  lemma EmptyRangeNeverHolds(gs: GameState)
    ensures AreHandsInRange("", gs) == Ok(false)
  {
    EmptyRange("");
  }

  // ---- the range table ----

  /** The `when` blocks of `makeBet`: the range for each position and
      depth in big blinds. The blinds' rows at 10 and 15 big blinds and
      below 10 are written with "Q9s+J9s+" and "Q2s+J2s+", parts that lack
      a comma. */
  function RangeFor(position: Position, bbLeft: int): string {
    match position
    case Button =>
      if bbLeft >= 15 then "A2s+,K5s+,Q7s+,J8s+,T8s+,97s+,86s+,76s,22+,A4o+,K9o+,Q9o+,JTo,T9o"
      else if bbLeft >= 10 then "A2s+,K4s+,Q6s+,J7s+,T8s+,97s+,87s,76s,22+,A4o+,K9o+,JTo,T9o"
      else if bbLeft >= 5 then "A2s+,K2s+,Q5s+,J7s+,T7s+,97s+,87s,76s,22+,A2o+,K5o+,Q9o+,J9o,T9o"
      else "A2s+,K2s+,Q5s+,J7s+,T7s+,97s+,87s,76s,22+,A2o+,K5o+,Q9o+,J9o,T9o"
    case Cutoff =>
      if bbLeft >= 20 then "A2s+,K3s+,Q7s+,J8s+,T8s+,97s+,86s+,76s,22+,A5o+,K9o+,Q9o+,JTo,T9o"
      else if bbLeft >= 15 then "A2s+,K5s+,Q8s+,J8s+,T8s+,98s+,87s,22+,A2o+,KTo+,QTo+,JTo"
      else if bbLeft >= 10 then "A2s+,K5s+,Q8s+,J8s+,T8s+,98s+,87s,22+,A2o+,KTo+,QTo+,JTo"
      else if bbLeft >= 5 then "A2s+,K2s+,Q6s+,J7s+,T7s+,98s,87s,22+,A2o+,K6o+,Q9o+,J9o+"
      else ""
    case BigBlind | SmallBlind =>
      if bbLeft >= 20 then "A2s+,K3s+,Q7s+,J8s+,T8s+,97s+,86s+,76s,22+,A5o+,K9o+,Q9o+,JTo,T9o"
      else if bbLeft >= 15 then "A2s+,K9s+,Q9s+J9s+,T9s+,98s+,22+,A8o+,KJo+"
      else if bbLeft >= 10 then "A2s+,K9s+,Q9s+J9s+,T9s+,98s+,22+,A8o+,KJo+"
      else "A2s+,K2s+,Q2s+J2s+,T2s+,92s+,83s+,74s+,63s+,53s+,43s+,22+,A2o+,K2o+,Q2o+,J2o+,T3o+,96o+,86o+,76o+"
  }

  /** Which rows answer a hand of their range with `minimum_raise`
      rather than the stack: the cutoff's and the blinds' rows for at
      least 20 big blinds. */
  function RaisesMinimum(position: Position, bbLeft: int): bool {
    match position
    case Button => false
    case Cutoff => bbLeft >= 20
    case BigBlind | SmallBlind => bbLeft >= 20
  }

  /** `makeBet(bbLeft, position, gameState)`: `players[in_action]` throws
      when out of range; otherwise the amount is 0 without a hand of the
      chosen range, and the stack or the minimum raise with one. */
  function MakeBet(bbLeft: int, position: Position, gs: GameState): Result<int> {
    if !(0 <= gs.inAction < |gs.players|) then Err(IndexOutOfBounds)
    else
      var me := gs.players[gs.inAction];
      match AreHandsInRange(RangeFor(position, bbLeft), gs)
      case Err(f) => Err(f)
      case Ok(inRange) =>
        Ok(if !inRange then 0 else if RaisesMinimum(position, bbLeft) then gs.minimumRaise else me.stack)
  }

  /** The amount is 0, the stack or (deep, outside the button) the minimum
      raise; it is not 0 exactly when the player holds a hand of the
      row's range. */
  lemma MakeBetAmount(bbLeft: int, position: Position, gs: GameState)
    requires 0 <= gs.inAction < |gs.players|
    ensures var range := RangeFor(position, bbLeft);
      MakeBet(bbLeft, position, gs).Err? <==> AreHandsInRange(range, gs).Err?
    ensures var range, stack := RangeFor(position, bbLeft), gs.players[gs.inAction].stack;
      MakeBet(bbLeft, position, gs).Ok? ==>
        var v := MakeBet(bbLeft, position, gs).value;
        (AreHandsInRange(range, gs) == Ok(false) ==> v == 0)
        && (AreHandsInRange(range, gs) == Ok(true) ==>
              v == if position != Button && bbLeft >= 20 then gs.minimumRaise else stack)
  {
    assert RaisesMinimum(position, bbLeft) <==> position != Button && bbLeft >= 20;
  }

  /** In the cutoff with fewer than 5 big blinds the range is empty, so the
      answer is always 0. */
  lemma CutoffShortFolds(bbLeft: int, gs: GameState)
    requires 0 <= gs.inAction < |gs.players| && bbLeft < 5
    ensures MakeBet(bbLeft, Cutoff, gs) == Ok(0)
  {
    assert RangeFor(Cutoff, bbLeft) == "";
    EmptyRangeNeverHolds(gs);
    MakeBetAmount(bbLeft, Cutoff, gs);
  }

  /** With no player in action `makeBet` throws. */
  lemma MakeBetNoPlayer(bbLeft: int, position: Position, gs: GameState)
    requires !(0 <= gs.inAction < |gs.players|)
    ensures MakeBet(bbLeft, position, gs) == Err(IndexOutOfBounds)
  {
  }

  // ---- the preflop decision ----

  /** `makeBetPreflop`: -1 (no opinion) after the flop, when someone has
      bet or raised, or with more than 15 big blinds; otherwise the table's
      answer for the player's position and depth. The position is worked
      out before the depth, so its failure is the one reported. */
  function MakeBetPreflop(gs: GameState): Result<int> {
    if !IsPreflop(gs) then Ok(-1)
    else if HasOtherPlayerBetOrRaised(gs) then Ok(-1)
    else
      match GetPlayerPosition(gs)
      case Err(f) => Err(f)
      case Ok(position) =>
        match BigBlindsLeft(gs)
        case Err(f) => Err(f)
        case Ok(bbLeft) =>
          if bbLeft > 15 then Ok(-1)
          else MakeBet(bbLeft, position, gs)
  }

  /** The preflop answer is -1 after the flop, when facing a bet, or deep;
      otherwise it is 0 or the whole stack, never the minimum raise, since
      the raising rows need 20 big blinds. */
  lemma MakeBetPreflopAmount(gs: GameState)
    ensures !IsPreflop(gs) || HasOtherPlayerBetOrRaised(gs) ==> MakeBetPreflop(gs) == Ok(-1)
    ensures IsPreflop(gs) && !HasOtherPlayerBetOrRaised(gs) && GetPlayerPosition(gs).Ok?
            && BigBlindsLeft(gs).Ok? && BigBlindsLeft(gs).value > 15
            ==> MakeBetPreflop(gs) == Ok(-1)
    ensures IsPreflop(gs) && !HasOtherPlayerBetOrRaised(gs) && GetPlayerPosition(gs).Ok?
            && BigBlindsLeft(gs).Ok? && BigBlindsLeft(gs).value <= 15 && MakeBetPreflop(gs).Ok?
            ==> MakeBetPreflop(gs).value == 0 || MakeBetPreflop(gs).value == gs.players[gs.inAction].stack
  {
    if IsPreflop(gs) && !HasOtherPlayerBetOrRaised(gs) && GetPlayerPosition(gs).Ok?
       && BigBlindsLeft(gs).Ok? && BigBlindsLeft(gs).value <= 15 && MakeBetPreflop(gs).Ok? {
      var position, bbLeft := GetPlayerPosition(gs).value, BigBlindsLeft(gs).value;
      MakeBetAmount(bbLeft, position, gs);
    }
  }

  /** The preflop answer fails exactly when the position, the depth or the
      table fails: never after the flop or when facing a bet. */
  lemma MakeBetPreflopFails(gs: GameState)
    ensures MakeBetPreflop(gs).Err? ==> IsPreflop(gs) && !HasOtherPlayerBetOrRaised(gs)
    ensures IsPreflop(gs) && !HasOtherPlayerBetOrRaised(gs) && GetPlayerPosition(gs).Err? ==>
              MakeBetPreflop(gs) == Err(GetPlayerPosition(gs).failure)
  {
  }
}

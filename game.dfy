/** The already-parsed game state the bot decides on (GameState.kt), and
    the hand categories of the `handtype` package. */
module Game {
  import opened KotlinRuntime

  /** A card as the server sends it: rank and suit are free-form strings. */
  datatype Card = Card(rank: string, suit: string)

  /** A seat at the table; `holeCards` is absent for the other players. */
  datatype Player = Player(
    id: int,
    name: string,
    status: string,
    version: string,
    stack: int,
    bet: int,
    holeCards: Option<seq<Card>>)

  /** One decision request. Every consumer of `players` reads Player
      fields, so the list holds Player values. */
  datatype GameState = GameState(
    tournamentId: string,
    gameId: string,
    round: int,
    betIndex: int,
    smallBlind: int,
    currentBuyIn: int,
    pot: int,
    minimumRaise: int,
    dealer: int,
    orbits: int,
    inAction: int,
    players: seq<Player>,
    communityCards: seq<Card>)

  /** `players.getOrNull(in_action)`. */
  function PlayerInAction(gs: GameState): (p: Option<Player>)
    ensures p.Some? <==> 0 <= gs.inAction < |gs.players|
    ensures p.Some? ==> p.value in gs.players
  {
    if 0 <= gs.inAction < |gs.players| then Some(gs.players[gs.inAction]) else None
  }

  /** The hand categories, weakest first. */
  datatype HandType =
    | HighCard | Pair | TwoPair | ThreeOfAKind | Straight
    | Flush | FullHouse | FourOfAKind | StraightFlush | RoyalFlush

  /** `HandType.strength`. The handtype package is not part of this model;
      the order is the one its evaluators' decision chains imply, and the
      strengths are assumed distinct. */
  function Strength(h: HandType): (s: nat)
    ensures s <= 9
    ensures h == HighCard <==> s == 0
    ensures h == RoyalFlush <==> s == 9
  {
    match h
    case HighCard => 0
    case Pair => 1
    case TwoPair => 2
    case ThreeOfAKind => 3
    case Straight => 4
    case Flush => 5
    case FullHouse => 6
    case FourOfAKind => 7
    case StraightFlush => 8
    case RoyalFlush => 9
  }

  /** Distinct categories have distinct strengths, so `maxBy { strength }`
      picks a category, not merely a strength. */
  lemma StrengthInjective(a: HandType, b: HandType)
    ensures Strength(a) == Strength(b) <==> a == b
  {
  }
}

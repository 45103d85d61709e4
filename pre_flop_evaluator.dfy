/** `PreFlopEvaluator.isOpenForRaise` (PreFlopEvaluator.kt): two hole
    cards are written as a combo string ("AA", "KAs", "QKo") and looked up
    in a literal early-position opening range. The ordering list spells
    tens "10" while the range spells them "T". */
module PreFlopEvaluator {
  import opened KotlinRuntime
  import opened Game

  const SizeMessage: string := "Hand must contain exactly 2 cards"

  /** `rankOrder`, lowest first. */
  const RankOrder: seq<string> := ["2", "3", "4", "5", "6", "7", "8", "9", "10", "J", "Q", "K", "A"]

  /** `ep1OpenRange`, in the three groups of its literal. */
  const PocketPairs: set<string> := {"AA", "KK", "QQ", "JJ", "TT", "99", "88", "77", "66"}

  /** Suited entries, both orders. */
  const SuitedCombos: set<string> := {
    "AKs", "KAs", "AQs", "QAs", "AJs", "JAs", "ATs", "TAs",
    "A9s", "9As", "A8s", "8As", "A7s", "7As", "A6s", "6As",
    "A5s", "5As", "A4s", "4As", "KQs", "QKs", "KJs", "JKs",
    "KTs", "TKs", "QJs", "JQs", "QTs", "TQs", "JTs", "TJs",
    "T9s", "9Ts", "98s", "89s"}

  /** Offsuit entries, both orders. */
  const OffsuitCombos: set<string> := {"AKo", "KAo", "AQo", "QAo", "KQo", "QKo"}

  const Ep1OpenRange: set<string> := PocketPairs + SuitedCombos + OffsuitCombos

  /** `listOf(r1, r2).sortedBy { rankOrder.indexOf(it) }`: a stable sort,
      so the cards swap only when the second has the strictly smaller
      index (an unlisted rank, such as "T", has index -1). */
  function SortByRankOrder(r1: string, r2: string): (ranks: seq<string>)
    ensures ranks == [r1, r2] || ranks == [r2, r1]
    ensures IndexOf(RankOrder, ranks[0]) <= IndexOf(RankOrder, ranks[1])
    ensures IndexOf(RankOrder, r1) == IndexOf(RankOrder, r2) ==> ranks == [r1, r2]
  {
    if IndexOf(RankOrder, r2) < IndexOf(RankOrder, r1) then [r2, r1] else [r1, r2]
  }

  /** The combo string: a pair is its two ranks, any other hand the two
      ranks in sorted order with "s" or "o". */
  function Combo(hand: seq<Card>): string
    requires |hand| == 2
  {
    var r1 := hand[0].rank;
    var r2 := hand[1].rank;
    var suited := hand[0].suit == hand[1].suit;
    var ranks := SortByRankOrder(r1, r2);
    if r1 == r2 then r1 + r2
    else if suited then ranks[0] + ranks[1] + "s"
    else ranks[0] + ranks[1] + "o"
  }

  /** `isOpenForRaise`: `require(hand.size == 2)`, then range membership. */
  function IsOpenForRaise(hand: seq<Card>): (r: Result<bool>)
    ensures r.Err? <==> |hand| != 2
    ensures r.Err? ==> r.failure == RequirementFailed(SizeMessage)
    ensures r.Ok? ==> (r.value <==> Combo(hand) in Ep1OpenRange)
  {
    if |hand| != 2 then Err(RequirementFailed(SizeMessage))
    else Ok(Combo(hand) in Ep1OpenRange)
  }

  // ---- the range as poker hands ----

  /** The rank names a server sends: those of `rankOrder`, and "T". */
  predicate IsRankName(r: string) {
    r in RankOrder || r == "T"
  }

  /** The suited hands of the range, higher rank first. */
  const SuitedHands: set<(char, char)> := {
    ('A', 'K'), ('A', 'Q'), ('A', 'J'), ('A', 'T'), ('A', '9'), ('A', '8'),
    ('A', '7'), ('A', '6'), ('A', '5'), ('A', '4'),
    ('K', 'Q'), ('K', 'J'), ('K', 'T'), ('Q', 'J'), ('Q', 'T'), ('J', 'T'),
    ('T', '9'), ('9', '8')}

  /** The offsuit hands of the range. */
  const OffsuitHands: set<(char, char)> := {('A', 'K'), ('A', 'Q'), ('K', 'Q')}

  /** The opening range read as poker hands, whichever card comes first:
      pairs from sixes up, and the listed suited and offsuit hands. Every
      hand is written with one-character ranks, so a ten spelled "10" is
      never in it. */
  predicate InEp1Range(r1: string, r2: string, suited: bool) {
    |r1| == 1 && |r2| == 1 &&
    if r1 == r2 then r1[0] in "AKQJT9876"
    else if suited then (r1[0], r2[0]) in SuitedHands || (r2[0], r1[0]) in SuitedHands
    else (r1[0], r2[0]) in OffsuitHands || (r2[0], r1[0]) in OffsuitHands
  }

  // ---- each group of the literal, character by character ----

  lemma PairsAsChars(e: string)
    requires e in PocketPairs
    ensures |e| == 2 && e[0] == e[1] && e[0] in "AKQJT9876"
  {
  }

  lemma PairsFromChars(c: char)
    requires c in "AKQJT9876"
    ensures [c, c] in PocketPairs
  {
  }

  lemma SuitedAsChars(e: string)
    requires e in SuitedCombos
    ensures |e| == 3 && e[2] == 's'
    ensures (e[0], e[1]) in SuitedHands || (e[1], e[0]) in SuitedHands
  {
  }

  lemma SuitedFromChars(x: char, y: char)
    requires (x, y) in SuitedHands
    ensures [x, y, 's'] in SuitedCombos && [y, x, 's'] in SuitedCombos
  {
  }

  lemma OffsuitAsChars(e: string)
    requires e in OffsuitCombos
    ensures |e| == 3 && e[2] == 'o'
    ensures (e[0], e[1]) in OffsuitHands || (e[1], e[0]) in OffsuitHands
  {
  }

  lemma OffsuitFromChars(x: char, y: char)
    requires (x, y) in OffsuitHands
    ensures [x, y, 'o'] in OffsuitCombos && [y, x, 'o'] in OffsuitCombos
  {
  }

  /** Every entry of the literal set has two or three characters, none of
      them a '1'. */
  lemma RangeEntries(e: string)
    requires e in Ep1OpenRange
    ensures |e| == 2 || |e| == 3
    ensures '1' !in e
  {
    if e in PocketPairs {
      PairEntries(e);
    } else if e in SuitedCombos {
      SuitedEntries(e);
    } else {
      OffsuitEntries(e);
    }
  }

  lemma PairEntries(e: string)
    requires e in PocketPairs
    ensures |e| == 2 && '1' !in e
  {
  }

  lemma SuitedEntries(e: string)
    requires e in SuitedCombos
    ensures |e| == 3 && '1' !in e
  {
  }

  lemma OffsuitEntries(e: string)
    requires e in OffsuitCombos
    ensures |e| == 3 && '1' !in e
  {
  }

  /** A doubled character is in range exactly when it is one of
      A, K, Q, J, T, 9, 8, 7, 6. */
  lemma PairChars(c: char)
    ensures [c, c] in Ep1OpenRange <==> c in "AKQJT9876"
  {
    var e := [c, c];
    if e in SuitedCombos {
      SuitedAsChars(e);
    }
    if e in OffsuitCombos {
      OffsuitAsChars(e);
    }
    if e in PocketPairs {
      PairsAsChars(e);
    }
    if c in "AKQJT9876" {
      PairsFromChars(c);
    }
  }

  /** Two different characters and a suffix character: in range exactly
      when the two make one of the listed suited or offsuit hands. */
  lemma TwoChars(x: char, y: char, suffix: char)
    requires x != y && (suffix == 's' || suffix == 'o')
    ensures [x, y, suffix] in Ep1OpenRange <==>
      if suffix == 's' then (x, y) in SuitedHands || (y, x) in SuitedHands
      else (x, y) in OffsuitHands || (y, x) in OffsuitHands
  {
    var e := [x, y, suffix];
    if e in PocketPairs {
      PairsAsChars(e);
    }
    if e in SuitedCombos {
      SuitedAsChars(e);
    }
    if e in OffsuitCombos {
      OffsuitAsChars(e);
    }
    if suffix == 's' {
      if (x, y) in SuitedHands {
        SuitedFromChars(x, y);
      }
      if (y, x) in SuitedHands {
        SuitedFromChars(y, x);
      }
    } else {
      if (x, y) in OffsuitHands {
        OffsuitFromChars(x, y);
      }
      if (y, x) in OffsuitHands {
        OffsuitFromChars(y, x);
      }
    }
  }

  /** A pocket pair is in range exactly when its rank is one of
      A, K, Q, J, T, 9, 8, 7, 6. */
  lemma PairCombo(r: string)
    ensures r + r in Ep1OpenRange <==> InEp1Range(r, r, false)
  {
    if |r| == 1 {
      PairOfOneChar(r);
    } else {
      PairOfLongRank(r);
    }
  }

  lemma PairOfOneChar(r: string)
    requires |r| == 1
    ensures r + r in Ep1OpenRange <==> r[0] in "AKQJT9876"
  {
    assert r + r == [r[0], r[0]];
    PairChars(r[0]);
  }

  lemma PairOfLongRank(r: string)
    requires |r| != 1
    ensures r + r !in Ep1OpenRange
  {
    if r + r in Ep1OpenRange {
      RangeEntries(r + r);
    }
  }

  /** Two different one-character ranks with a suffix. */
  lemma TwoRankCombo(x: string, y: string, suffix: string)
    requires |x| == 1 && |y| == 1 && x != y
    requires suffix == "s" || suffix == "o"
    ensures x + y + suffix in Ep1OpenRange <==> InEp1Range(x, y, suffix == "s")
  {
    assert x + y + suffix == [x[0], y[0], suffix[0]];
    assert x[0] != y[0] by {
      assert x == [x[0]] && y == [y[0]];
    }
    TwoChars(x[0], y[0], suffix[0]);
  }

  /** Every character of either rank appears in the combo. */
  lemma ComboKeepsRanks(hand: seq<Card>, c: char)
    requires |hand| == 2 && (c in hand[0].rank || c in hand[1].rank)
    ensures c in Combo(hand)
  {
    var r1, r2 := hand[0].rank, hand[1].rank;
    var ranks := SortByRankOrder(r1, r2);
    assert c in ranks[0] || c in ranks[1];
    ConcatKeeps(ranks[0], ranks[1], c);
    ConcatKeeps(r1, r2, c);
    if r1 != r2 {
      ConcatKeeps(ranks[0] + ranks[1], if hand[0].suit == hand[1].suit then "s" else "o", c);
    }
  }

  lemma ConcatKeeps(a: string, b: string, c: char)
    ensures c in a + b <==> c in a || c in b
  {
    if c in a {
      var i :| 0 <= i < |a| && a[i] == c;
      assert (a + b)[i] == c;
    }
    if c in b {
      var i :| 0 <= i < |b| && b[i] == c;
      assert (a + b)[|a| + i] == c;
    }
  }

  /** A "10" never matches: the combo then holds a '1' and no entry
      does. */
  lemma TenNeverInRange(hand: seq<Card>)
    requires |hand| == 2 && (hand[0].rank == "10" || hand[1].rank == "10")
    ensures IsOpenForRaise(hand) == Ok(false)
  {
    assert "10"[0] == '1';
    ComboKeepsRanks(hand, '1');
    if Combo(hand) in Ep1OpenRange {
      RangeEntries(Combo(hand));
    }
  }

  /** Every rank name other than "10" is one character long. */
  lemma RankNameLength(r: string)
    requires IsRankName(r) && r != "10"
    ensures |r| == 1
  {
    if r in RankOrder {
      var i :| 0 <= i < |RankOrder| && RankOrder[i] == r;
      assert i != 8;
    }
  }

  /** Two different one-character ranks: the combo is the sorted pair of
      ranks with the suit suffix. */
  lemma TwoRanksInRange(a: Card, b: Card)
    requires |a.rank| == 1 && |b.rank| == 1 && a.rank != b.rank
    ensures IsOpenForRaise([a, b]) == Ok(InEp1Range(a.rank, b.rank, a.suit == b.suit))
  {
    var ranks := SortByRankOrder(a.rank, b.rank);
    var suffix := if a.suit == b.suit then "s" else "o";
    assert Combo([a, b]) == ranks[0] + ranks[1] + suffix;
    TwoRankCombo(ranks[0], ranks[1], suffix);
  }

  /** On the rank names a server sends, `isOpenForRaise` is exactly the
      opening range read as poker hands: pairs by rank, other hands by
      their two ranks and whether they are suited, in either order. */
  lemma OpenRangeMeaning(a: Card, b: Card)
    requires IsRankName(a.rank) && IsRankName(b.rank)
    ensures IsOpenForRaise([a, b]) == Ok(InEp1Range(a.rank, b.rank, a.suit == b.suit))
  {
    if a.rank == b.rank {
      assert Combo([a, b]) == a.rank + a.rank;
      PairCombo(a.rank);
    } else if a.rank == "10" || b.rank == "10" {
      TenNeverInRange([a, b]);
    } else {
      RankNameLength(a.rank);
      RankNameLength(b.rank);
      TwoRanksInRange(a, b);
    }
  }

  /** The order of the two cards never matters (AKs, AQs and AKo are
      accepted either way round). */
  lemma OrderIndependent(a: Card, b: Card)
    requires IsRankName(a.rank) && IsRankName(b.rank)
    ensures IsOpenForRaise([a, b]) == IsOpenForRaise([b, a])
  {
    OpenRangeMeaning(a, b);
    OpenRangeMeaning(b, a);
  }

  /** The only offsuit hands accepted are the ones made of two of A, K
      and Q (AK, AQ, KQ). */
  lemma OffsuitOnlyBroadway(a: Card, b: Card)
    requires IsRankName(a.rank) && IsRankName(b.rank)
    requires a.rank != b.rank && a.suit != b.suit
    ensures IsOpenForRaise([a, b]) == Ok(true) <==>
              a.rank in ["A", "K", "Q"] && b.rank in ["A", "K", "Q"]
  {
    OpenRangeMeaning(a, b);
    OffsuitBroadway(a.rank, b.rank);
  }

  /** Read as poker hands, the offsuit part of the range is the pairs of
      two different ranks among A, K and Q. */
  lemma OffsuitBroadway(r1: string, r2: string)
    requires r1 != r2
    ensures InEp1Range(r1, r2, false) <==> r1 in ["A", "K", "Q"] && r2 in ["A", "K", "Q"]
  {
    if |r1| == 1 && |r2| == 1 {
      assert r1[0] != r2[0] by {
        assert r1 == [r1[0]] && r2 == [r2[0]];
      }
      BroadwayName(r1);
      BroadwayName(r2);
      OffsuitChars(r1[0], r2[0]);
    }
  }

  /** A one-character rank name is one of A, K, Q exactly when its
      character is. */
  lemma BroadwayName(r: string)
    requires |r| == 1
    ensures r in ["A", "K", "Q"] <==> r[0] in "AKQ"
  {
    assert r == [r[0]];
  }

  /** The offsuit hands are the pairs of distinct characters from A, K, Q. */
  lemma OffsuitChars(x: char, y: char)
    requires x != y
    ensures (x, y) in OffsuitHands || (y, x) in OffsuitHands <==> x in "AKQ" && y in "AKQ"
  {
  }

  /** KQ suited is opened, KT offsuit and 72 offsuit are not. */
  lemma TwoRankExamples()
    ensures IsOpenForRaise([Card("K", "hearts"), Card("Q", "hearts")]) == Ok(true)
    ensures IsOpenForRaise([Card("K", "hearts"), Card("T", "spades")]) == Ok(false)
    ensures IsOpenForRaise([Card("2", "hearts"), Card("7", "spades")]) == Ok(false)
  {
    TwoRanksInRange(Card("K", "hearts"), Card("Q", "hearts"));
    KtOff();
    TwoRanksInRange(Card("K", "hearts"), Card("T", "spades"));
    SevenTwoOff();
    TwoRanksInRange(Card("2", "hearts"), Card("7", "spades"));
  }

  /** KT offsuit is not one of the range's hands. */
  lemma KtOff() ensures !InEp1Range("K", "T", false) {
    assert "K"[0] == 'K' && "T"[0] == 'T';
  }

  /** Nor is 72 offsuit. */
  lemma SevenTwoOff() ensures !InEp1Range("2", "7", false) {
    assert "2"[0] == '2' && "7"[0] == '7';
  }

  /** 99 and 66 are opened, ... */
  lemma PairExamples()
    ensures IsOpenForRaise([Card("9", "clubs"), Card("9", "hearts")]) == Ok(true)
    ensures IsOpenForRaise([Card("6", "spades"), Card("6", "diamonds")]) == Ok(true)
  {
    PairHand(Card("9", "clubs"), Card("9", "hearts"));
    PairHand(Card("6", "spades"), Card("6", "diamonds"));
  }

  /** ... 55 is not. */
  lemma FivesFold()
    ensures IsOpenForRaise([Card("5", "spades"), Card("5", "diamonds")]) == Ok(false)
  {
    PairHand(Card("5", "spades"), Card("5", "diamonds"));
    assert !InEp1Range("5", "5", false) by {
      assert "5"[0] == '5';
    }
  }

  /** Two cards of the same rank string: the combo is the doubled rank. */
  lemma PairHand(a: Card, b: Card)
    requires a.rank == b.rank
    ensures IsOpenForRaise([a, b]) == Ok(InEp1Range(a.rank, a.rank, false))
  {
    assert Combo([a, b]) == a.rank + a.rank;
    PairCombo(a.rank);
  }
}

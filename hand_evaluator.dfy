/** `HandEvaluator` (HandEvaluator.kt): the category of a two-card hand, or
    the best category over every five-card subset of a larger hand. */
module HandEvaluator {
  import opened KotlinRuntime
  import opened Game
  import opened HandFeatures

  // ---- combinations ----

  /** `List.combinations(k)`: the k-element sublists, those holding the
      first element before those that do not. */
  function Combinations<T>(xs: seq<T>, k: nat): seq<seq<T>>
    decreases |xs|
  {
    if k == 0 then [[]]
    else if xs == [] then []
    else
      var withHead := Prepend(xs[0], Combinations(xs[1..], k - 1));
      var withoutHead := Combinations(xs[1..], k);
      withHead + withoutHead
  }

  /** `.map { listOf(head) + it }`. */
  function Prepend<T>(x: T, cs: seq<seq<T>>): (r: seq<seq<T>>)
    ensures |r| == |cs|
    ensures forall i :: 0 <= i < |cs| ==> r[i] == [x] + cs[i]
  {
    seq(|cs|, i requires 0 <= i < |cs| => [x] + cs[i])
  }

  /** The binomial coefficient, by Pascal's rule. */
  function Choose(n: nat, k: nat): nat {
    if k == 0 then 1
    else if n == 0 then 0
    else Choose(n - 1, k - 1) + Choose(n - 1, k)
  }

  /** There are C(n, k) combinations. */
  lemma {:induction false} CombinationsCount<T>(xs: seq<T>, k: nat)
    ensures |Combinations(xs, k)| == Choose(|xs|, k)
    decreases |xs|
  {
    if k != 0 && xs != [] {
      CombinationsCount(xs[1..], k - 1);
      CombinationsCount(xs[1..], k);
    }
  }

  /** C(n, k) is zero exactly when k exceeds n. */
  lemma {:induction false} ChoosePositive(n: nat, k: nat)
    ensures Choose(n, k) > 0 <==> k <= n
    decreases n
  {
    if k != 0 && n != 0 {
      ChoosePositive(n - 1, k - 1);
      ChoosePositive(n - 1, k);
    }
  }

  /** Fewer than k elements give no combination at all, k or more give at
      least one. */
  lemma CombinationsEmpty<T>(xs: seq<T>, k: nat)
    ensures Combinations(xs, k) == [] <==> |xs| < k
  {
    CombinationsCount(xs, k);
    ChoosePositive(|xs|, k);
  }

  /** Each combination has k elements. */
  lemma {:induction false} CombinationsLength<T>(xs: seq<T>, k: nat, c: seq<T>)
    requires c in Combinations(xs, k)
    ensures |c| == k
    decreases |xs|
  {
    if k != 0 {
      var d, withHead := SplitMember(xs, k, c);
      if withHead {
        CombinationsLength(xs[1..], k - 1, d);
      } else {
        CombinationsLength(xs[1..], k, c);
      }
    }
  }

  /** A k-combination of a non-empty list is its head before a
      (k-1)-combination of the tail, or a k-combination of the tail. */
  lemma SplitMember<T>(xs: seq<T>, k: nat, c: seq<T>) returns (d: seq<T>, withHead: bool)
    requires k != 0 && c in Combinations(xs, k)
    ensures xs != []
    ensures withHead ==> d in Combinations(xs[1..], k - 1) && c == [xs[0]] + d
    ensures !withHead ==> c in Combinations(xs[1..], k)
  {
    CombinationsSplit(xs, k);
    var a := Combinations(xs[1..], k - 1);
    if c in Prepend(xs[0], a) {
      var j :| 0 <= j < |a| && Prepend(xs[0], a)[j] == c;
      d, withHead := a[j], true;
    } else {
      d, withHead := [], false;
    }
  }

  /** Each of the combinations a hand gives has five cards. */
  lemma FiveCardCombinations<T>(xs: seq<T>)
    ensures forall c :: c in Combinations(xs, 5) ==> |c| == 5
  {
    forall c | c in Combinations(xs, 5) ensures |c| == 5 {
      CombinationsLength(xs, 5, c);
    }
  }

  /** `idx` picks positions of a list of length n in increasing order. */
  predicate IsSelection(idx: seq<int>, n: int) {
    (forall i :: 0 <= i < |idx| ==> 0 <= idx[i] < n)
    && (forall i, j :: 0 <= i < j < |idx| ==> idx[i] < idx[j])
  }

  /** The elements of `xs` at the positions `idx`. */
  function Pick<T>(xs: seq<T>, idx: seq<int>): (r: seq<T>)
    requires IsSelection(idx, |xs|)
    ensures |r| == |idx|
    ensures forall i :: 0 <= i < |idx| ==> r[i] == xs[idx[i]]
  {
    seq(|idx|, i requires 0 <= i < |idx| => xs[idx[i]])
  }

  /** Every position one lower. */
  function Lower(idx: seq<int>): (r: seq<int>)
    ensures |r| == |idx|
    ensures forall i :: 0 <= i < |idx| ==> r[i] == idx[i] - 1
  {
    seq(|idx|, i requires 0 <= i < |idx| => idx[i] - 1)
  }

  /** Every position one higher. */
  function Higher(idx: seq<int>): (r: seq<int>)
    ensures |r| == |idx|
    ensures forall i :: 0 <= i < |idx| ==> r[i] == idx[i] + 1
  {
    seq(|idx|, i requires 0 <= i < |idx| => idx[i] + 1)
  }

  /** A selection that starts at position 0: the head, then a selection of
      the tail. */
  lemma PickFromHead<T>(xs: seq<T>, idx: seq<int>)
    requires IsSelection(idx, |xs|) && idx != [] && idx[0] == 0
    ensures IsSelection(Lower(idx[1..]), |xs| - 1)
    ensures Pick(xs, idx) == [xs[0]] + Pick(xs[1..], Lower(idx[1..]))
  {
    var rest := Lower(idx[1..]);
    forall i | 0 <= i < |rest| ensures 0 <= rest[i] < |xs| - 1 {
      assert idx[0] < idx[i + 1];
    }
    var r := [xs[0]] + Pick(xs[1..], rest);
    forall i | 0 <= i < |idx| ensures Pick(xs, idx)[i] == r[i] {
      if i > 0 {
        assert rest[i - 1] == idx[i] - 1;
      }
    }
  }

  /** A selection that skips position 0 is a selection of the tail. */
  lemma PickFromTail<T>(xs: seq<T>, idx: seq<int>)
    requires IsSelection(idx, |xs|) && idx != [] && idx[0] != 0
    ensures IsSelection(Lower(idx), |xs| - 1)
    ensures Pick(xs, idx) == Pick(xs[1..], Lower(idx))
  {
    var rest := Lower(idx);
    forall i | 0 <= i < |rest| ensures 0 <= rest[i] < |xs| - 1 {
      assert idx[0] <= idx[i];
    }
    var r := Pick(xs[1..], rest);
    forall i | 0 <= i < |idx| ensures Pick(xs, idx)[i] == r[i] {
    }
  }

  /** Lifting a selection of the tail and adding position 0 selects the
      head followed by what it selected. */
  lemma LiftWithHead<T>(xs: seq<T>, rest: seq<int>, d: seq<T>)
    requires xs != [] && IsSelection(rest, |xs| - 1) && Pick(xs[1..], rest) == d
    ensures IsSelection([0] + Higher(rest), |xs|)
    ensures |[0] + Higher(rest)| == |rest| + 1
    ensures Pick(xs, [0] + Higher(rest)) == [xs[0]] + d
  {
    var withHead := [0] + Higher(rest);
    forall i | 1 <= i < |withHead| ensures withHead[i] == rest[i - 1] + 1 {
    }
    forall i, j | 0 <= i < j < |withHead| ensures withHead[i] < withHead[j] {
      if i > 0 {
        assert rest[i - 1] < rest[j - 1];
      }
    }
    var r := [xs[0]] + d;
    forall i | 0 <= i < |withHead| ensures Pick(xs, withHead)[i] == r[i] {
      if i > 0 {
        assert xs[withHead[i]] == xs[1..][rest[i - 1]];
      }
    }
  }

  /** Lifting it alone selects the same elements. */
  lemma LiftWithoutHead<T>(xs: seq<T>, rest: seq<int>, c: seq<T>)
    requires xs != [] && IsSelection(rest, |xs| - 1) && Pick(xs[1..], rest) == c
    ensures IsSelection(Higher(rest), |xs|)
    ensures Pick(xs, Higher(rest)) == c
  {
  }

  /** The combinations of a non-empty list: those with its head, then
      those without. */
  lemma CombinationsSplit<T>(xs: seq<T>, k: nat)
    requires k != 0 && xs != []
    ensures Combinations(xs, k) == Prepend(xs[0], Combinations(xs[1..], k - 1)) + Combinations(xs[1..], k)
  {
  }

  /** Every order-preserving choice of k elements is among the
      combinations. */
  lemma {:induction false} SelectionIsCombination<T>(xs: seq<T>, idx: seq<int>)
    requires IsSelection(idx, |xs|)
    ensures Pick(xs, idx) in Combinations(xs, |idx|)
    decreases |xs|
  {
    var k := |idx|;
    if k != 0 {
      assert 0 <= idx[0] < |xs|;
      var tail := xs[1..];
      if idx[0] == 0 {
        PickFromHead(xs, idx);
        var rest := Lower(idx[1..]);
        SelectionIsCombination(tail, rest);
        HeadSelection(xs, idx);
      } else {
        PickFromTail(xs, idx);
        SelectionIsCombination(tail, Lower(idx));
        TailSelection(xs, idx);
      }
    }
  }

  /** A selection starting at position 0 is a combination when the rest
      of it is one of the tail. */
  lemma HeadSelection<T>(xs: seq<T>, idx: seq<int>)
    requires IsSelection(idx, |xs|) && idx != [] && idx[0] == 0
    requires IsSelection(Lower(idx[1..]), |xs| - 1)
    requires Pick(xs[1..], Lower(idx[1..])) in Combinations(xs[1..], |idx| - 1)
    ensures Pick(xs, idx) in Combinations(xs, |idx|)
  {
    PickFromHead(xs, idx);
    CombinationsSplit(xs, |idx|);
    PrependMember(xs[0], Pick(xs[1..], Lower(idx[1..])), Combinations(xs[1..], |idx| - 1));
  }

  /** A selection skipping position 0 is a combination when it is one of
      the tail. */
  lemma TailSelection<T>(xs: seq<T>, idx: seq<int>)
    requires IsSelection(idx, |xs|) && idx != [] && idx[0] != 0
    requires IsSelection(Lower(idx), |xs| - 1)
    requires Pick(xs[1..], Lower(idx)) in Combinations(xs[1..], |idx|)
    ensures Pick(xs, idx) in Combinations(xs, |idx|)
  {
    PickFromTail(xs, idx);
    CombinationsSplit(xs, |idx|);
  }

  lemma PrependMember<T>(x: T, c: seq<T>, cs: seq<seq<T>>)
    requires c in cs
    ensures [x] + c in Prepend(x, cs)
  {
    var j :| 0 <= j < |cs| && cs[j] == c;
    assert Prepend(x, cs)[j] == [x] + c;
  }

  /** Every combination keeps the input order: it picks increasing
      positions. */
  lemma {:induction false} CombinationIsSelection<T>(xs: seq<T>, k: nat, c: seq<T>)
    returns (idx: seq<int>)
    requires c in Combinations(xs, k)
    ensures IsSelection(idx, |xs|) && |idx| == k && Pick(xs, idx) == c
    decreases |xs|
  {
    if k == 0 {
      idx := [];
    } else {
      var d, withHead := SplitMember(xs, k, c);
      var tail := xs[1..];
      if withHead {
        var rest := CombinationIsSelection(tail, k - 1, d);
        LiftWithHead(xs, rest, d);
        idx := [0] + Higher(rest);
      } else {
        var rest := CombinationIsSelection(tail, k, c);
        LiftWithoutHead(xs, rest, c);
        idx := Higher(rest);
      }
    }
  }

  // ---- five-card classification ----

  /** `evaluateFiveCardHand`: map the ranks (failing on an unknown one),
      then classify. */
  function EvaluateFiveCardHand(cards: seq<Card>): (r: Result<HandType>)
    requires |cards| == 5
    ensures r.Ok? <==> AllRanksKnown(cards)
    ensures r.Ok? ==> r.value == Category(Values(cards), IsFlush(cards))
    ensures r.Err? ==> exists c :: c in cards && c.rank !in RankMap && r.failure == UnknownRank(c.rank)
  {
    RankValuesUnknownCard(cards);
    match RankValues(cards)
    case Err(f) => Err(f)
    case Ok(ranks) => Ok(Category(ranks, IsFlush(cards)))
  }

  /** The features `evaluateFiveCardHand` computes from the rank values,
      followed by its `when` chain. */
  function Category(ranks: seq<int>, isFlush: bool): HandType
    requires |ranks| == 5
  {
    var rankCounts := RankCounts(ranks);
    var sortedRanks := SortAsc(ranks);
    RankCountsShape(ranks);
    Decide(IsStraight(sortedRanks), isFlush, sortedRanks[4] == 14, rankCounts[0],
           if |rankCounts| >= 2 then rankCounts[1] else 0)
  }

  /** The `when` chain: the first category that applies. `aceHigh` is
      `sortedRanks.maxOrNull() == 14`, `top` and `second` are
      `rankCounts[0]` and `rankCounts[1]`; the chain reads `second` only
      when `top` is 2 or 3, and a five-card hand then has a second count. */
  function Decide(isStraight: bool, isFlush: bool, aceHigh: bool, top: int, second: int): HandType {
    if isStraight && isFlush && aceHigh then RoyalFlush
    else if isStraight && isFlush then StraightFlush
    else if top == 4 then FourOfAKind
    else if top == 3 && second == 2 then FullHouse
    else if isFlush then Flush
    else if isStraight then Straight
    else if top == 3 then ThreeOfAKind
    else if top == 2 && second == 2 then TwoPair
    else if top == 2 then Pair
    else HighCard
  }

  /** The chain with the combinations a straight rules out removed. */
  lemma DecideCategories(isStraight: bool, isFlush: bool, aceHigh: bool, top: int, second: int)
    requires isStraight ==> top == 1
    requires 1 <= top <= 5
    ensures var h := Decide(isStraight, isFlush, aceHigh, top, second);
            && (h == RoyalFlush <==> isStraight && isFlush && aceHigh)
            && (h == StraightFlush <==> isStraight && isFlush && !aceHigh)
            && (h == FourOfAKind <==> top == 4)
            && (h == FullHouse <==> top == 3 && second == 2)
            && (h == Flush <==> isFlush && !isStraight && top != 4 && !(top == 3 && second == 2))
            && (h == Straight <==> isStraight && !isFlush)
            && (h == ThreeOfAKind <==> !isFlush && top == 3 && second != 2)
            && (h == TwoPair <==> !isFlush && top == 2 && second == 2)
            && (h == Pair <==> !isFlush && top == 2 && second != 2)
            && (h == HighCard <==> !isFlush && !isStraight && (top == 1 || top == 5))
  {
  }

  /** What the `when` chain amounts to on five rank values: a straight has
      no repeated rank, so quads, a full house and the pairs are never
      straights. Nothing checks that the cards are distinct, and five cards
      of one rank fall through to HIGH_CARD (or FLUSH when suited). */
  lemma FiveCardCategories(ranks: seq<int>, flush: bool)
    requires |ranks| == 5
    ensures var h := Category(ranks, flush);
            var rc := RankCounts(ranks);
            var s := SortAsc(ranks);
            && |rc| >= 1
            && (h == RoyalFlush <==> IsStraight(s) && flush && s[4] == 14)
            && (h == StraightFlush <==> IsStraight(s) && flush && s[4] != 14)
            && (h == FourOfAKind <==> rc[0] == 4)
            && (h == FullHouse <==> rc[0] == 3 && |rc| >= 2 && rc[1] == 2)
            && (h == Flush <==> flush && !IsStraight(s) && rc[0] != 4
                                && !(rc[0] == 3 && |rc| >= 2 && rc[1] == 2))
            && (h == Straight <==> IsStraight(s) && !flush)
            && (h == ThreeOfAKind <==> !flush && rc[0] == 3 && |rc| >= 2 && rc[1] != 2)
            && (h == TwoPair <==> !flush && rc[0] == 2 && |rc| >= 2 && rc[1] == 2)
            && (h == Pair <==> !flush && rc[0] == 2 && |rc| >= 2 && rc[1] != 2)
            && (h == HighCard <==> !flush && !IsStraight(s) && (rc[0] == 1 || rc[0] == 5))
  {
    var rc := RankCounts(ranks);
    var s := SortAsc(ranks);
    RankCountsShape(ranks);
    RankCountsBounds(ranks);
    if IsStraight(s) {
      StraightHasNoPairs(ranks);
    }
    DecideCategories(IsStraight(s), flush, s[4] == 14, rc[0], if |rc| >= 2 then rc[1] else 0);
  }

  /** The full-house row of the chain: counts starting [3, 2], and
      nothing else; counts [3, 1, 1] without a flush fall to three of a
      kind. */
  lemma FullHouseCategory(ranks: seq<int>, flush: bool)
    requires |ranks| == 5
    ensures var rc := RankCounts(ranks);
            |rc| >= 1
            && (Category(ranks, flush) == FullHouse <==> rc[0] == 3 && |rc| >= 2 && rc[1] == 2)
            && (rc == [3, 1, 1] && !flush ==> Category(ranks, flush) == ThreeOfAKind)
  {
    FiveCardCategories(ranks, flush);
  }

  /** Three of a kind with two different kickers is THREE_OF_A_KIND, and a
      full house needs the other two cards to pair. */
  lemma ThreeWithKickers(cards: seq<Card>)
    requires |cards| == 5 && AllRanksKnown(cards) && !IsFlush(cards)
    requires RankCounts(Values(cards)) == [3, 1, 1]
    ensures EvaluateFiveCardHand(cards) == Ok(ThreeOfAKind)
  {
    FullHouseCategory(Values(cards), false);
  }

  /** A suited A-2-3-4-5 is reported as ROYAL_FLUSH: the chain asks only
      whether the highest rank is an ace. */
  lemma SuitedWheelIsRoyal(cards: seq<Card>)
    requires |cards| == 5 && AllRanksKnown(cards) && IsFlush(cards)
    requires SortAsc(Values(cards)) == [2, 3, 4, 5, 14]
    ensures EvaluateFiveCardHand(cards) == Ok(RoyalFlush)
  {
    FiveCardCategories(Values(cards), true);
  }

  /** Rearranging five cards does not change whether they can be classified
      nor, when they can, their category. */
  lemma FiveCardPermutation(a: seq<Card>, b: seq<Card>)
    requires |a| == 5 && multiset(a) == multiset(b)
    ensures |b| == 5
    ensures EvaluateFiveCardHand(a).Ok? == EvaluateFiveCardHand(b).Ok?
    ensures EvaluateFiveCardHand(a).Ok? ==> EvaluateFiveCardHand(a) == EvaluateFiveCardHand(b)
  {
    assert |b| == |multiset(b)| == |multiset(a)| == 5;
    SameElementsPermutation(a, b);
    if AllRanksKnown(a) {
      MapPermutation(a, b, KnownValue);
      CategoryPermutation(Values(a), Values(b), IsFlush(a));
    }
  }

  /** The category depends only on which rank values there are, not on
      their order. */
  lemma CategoryPermutation(ra: seq<int>, rb: seq<int>, flush: bool)
    requires |ra| == 5 && multiset(ra) == multiset(rb)
    ensures |rb| == 5 && Category(ra, flush) == Category(rb, flush)
  {
    assert |rb| == |multiset(rb)| == |multiset(ra)|;
    SortAscPermutation(ra, rb);
    RankCountsPermutation(ra, rb);
  }

  /** Rearrangements hold the same cards, so the same ranks and suits. */
  lemma SameElementsPermutation(a: seq<Card>, b: seq<Card>)
    requires multiset(a) == multiset(b)
    ensures AllRanksKnown(a) <==> AllRanksKnown(b)
    ensures SuitSet(a) == SuitSet(b)
  {
    assert forall c :: c in a <==> c in b by {
      forall c ensures c in a <==> c in b {
        assert c in a <==> c in multiset(a);
        assert c in b <==> c in multiset(b);
      }
    }
  }

  // ---- best hand ----

  /** `.map { evaluateFiveCardHand(it) }`, before the first failure
      stops it. */
  function EvaluateEach(hands: seq<seq<Card>>): (rs: seq<Result<HandType>>)
    requires forall h :: h in hands ==> |h| == 5
    ensures |rs| == |hands|
    ensures forall i :: 0 <= i < |hands| ==> rs[i] == EvaluateFiveCardHand(hands[i])
  {
    seq(|hands|, i requires 0 <= i < |hands| => EvaluateFiveCardHand(hands[i]))
  }

  /** `maxBy { it.strength }`: the first category of greatest strength. */
  function MaxByStrength(hs: seq<HandType>): (m: HandType)
    requires hs != []
    ensures m in hs
    ensures forall h :: h in hs ==> Strength(h) <= Strength(m)
    decreases |hs|
  {
    if |hs| == 1 then hs[0]
    else
      var rest := MaxByStrength(hs[1..]);
      assert forall h :: h in hs ==> h == hs[0] || h in hs[1..];
      if Strength(rest) > Strength(hs[0]) then rest else hs[0]
  }

  /** `evaluateBestHand`: the strongest category over all five-card
      combinations; none at all is `NoSuchElementException`. */
  function EvaluateBestHand(cards: seq<Card>): (r: Result<HandType>)
    ensures |cards| < 5 ==> r == Err(NoSuchElement)
  {
    var combos := Combinations(cards, 5);
    CombinationsEmpty(cards, 5);
    FiveCardCombinations(cards);
    match Collect(EvaluateEach(combos))
    case Err(f) => Err(f)
    case Ok(hs) =>
      if hs == [] then Err(NoSuchElement) else Ok(MaxByStrength(hs))
  }

  /** `evaluatePreFlopHand`: two cards pair exactly when their rank strings
      are equal; suits are never looked at. */
  function EvaluatePreFlopHand(cards: seq<Card>): (h: HandType)
    requires |cards| == 2
    ensures h == Pair <==> cards[0].rank == cards[1].rank
    ensures h == Pair || h == HighCard
  {
    if cards[0].rank == cards[1].rank then Pair else HighCard
  }

  /** `evaluateHand`: the two-card rule for exactly two cards, the best
      five-card category otherwise. */
  function EvaluateHand(cards: seq<Card>): (r: Result<HandType>)
    ensures |cards| == 2 ==> r.Ok? && (r.value == Pair <==> cards[0].rank == cards[1].rank)
                             && (r.value == Pair || r.value == HighCard)
    ensures |cards| != 2 && |cards| < 5 ==> r == Err(NoSuchElement)
  {
    if |cards| == 2 then Ok(EvaluatePreFlopHand(cards)) else EvaluateBestHand(cards)
  }

  /** Choosing five of the positions 0..n-1 so that position p is among
      them (n >= 5). */
  function FiveWith(n: int, p: int): (idx: seq<int>)
    requires 5 <= n && 0 <= p < n
    ensures IsSelection(idx, n) && |idx| == 5 && p in idx
  {
    if p < 5 then [0, 1, 2, 3, 4] else [0, 1, 2, 3, p]
  }

  /** The best hand exists exactly when there are at least five cards and
      every rank is known; otherwise the error is the missing subset or an
      unknown rank. */
  lemma BestHandDefined(cards: seq<Card>)
    ensures EvaluateBestHand(cards).Ok? <==> |cards| >= 5 && AllRanksKnown(cards)
    ensures EvaluateBestHand(cards).Err? ==>
              EvaluateBestHand(cards).failure == NoSuchElement
              || exists c :: c in cards && c.rank !in RankMap
                             && EvaluateBestHand(cards).failure == UnknownRank(c.rank)
  {
    CombinationsEmpty(cards, 5);
    if |cards| >= 5 && AllRanksKnown(cards) {
      KnownRanksGiveBestHand(cards);
    }
    if EvaluateBestHand(cards).Ok? {
      BestHandNeedsKnownRanks(cards);
    }
    if EvaluateBestHand(cards).Err? && EvaluateBestHand(cards).failure != NoSuchElement {
      BestHandFailure(cards);
    }
  }

  /** Cards of a combination are cards of the hand. */
  lemma CombinationCards(cards: seq<Card>, hand: seq<Card>, c: Card)
    requires hand in Combinations(cards, 5) && c in hand
    ensures c in cards
  {
    var idx := CombinationIsSelection(cards, 5, hand);
    var j :| 0 <= j < 5 && hand[j] == c;
    assert c == cards[idx[j]];
  }

  lemma KnownRanksGiveBestHand(cards: seq<Card>)
    requires |cards| >= 5 && AllRanksKnown(cards)
    ensures EvaluateBestHand(cards).Ok?
  {
    var combos := Combinations(cards, 5);
    CombinationsEmpty(cards, 5);
    FiveCardCombinations(cards);
    var rs := EvaluateEach(combos);
    forall i | 0 <= i < |rs| ensures rs[i].Ok? {
      forall c: Card | c in combos[i] ensures c.rank in RankMap {
        CombinationCards(cards, combos[i], c);
      }
      assert AllRanksKnown(combos[i]);
    }
    assert Collect(rs).Ok?;
    assert |Collect(rs).value| == |combos| > 0;
  }

  lemma BestHandNeedsKnownRanks(cards: seq<Card>)
    requires EvaluateBestHand(cards).Ok?
    ensures AllRanksKnown(cards)
  {
    forall c: Card | c in cards ensures c.rank in RankMap {
      var p :| 0 <= p < |cards| && cards[p] == c;
      BestHandCardKnown(cards, p);
    }
  }

  /** Each card lies in some five-card selection, which must evaluate. */
  lemma BestHandCardKnown(cards: seq<Card>, p: int)
    requires EvaluateBestHand(cards).Ok? && 0 <= p < |cards|
    ensures cards[p].rank in RankMap
  {
    var idx := FiveWith(|cards|, p);
    BestHandBoundsSelection(cards, idx);
    var hand := Pick(cards, idx);
    var q :| 0 <= q < 5 && idx[q] == p;
    assert hand[q] == cards[p];
    assert hand[q] in hand;
  }

  lemma BestHandFailure(cards: seq<Card>)
    requires EvaluateBestHand(cards).Err? && EvaluateBestHand(cards).failure != NoSuchElement
    ensures exists c :: c in cards && c.rank !in RankMap
                        && EvaluateBestHand(cards).failure == UnknownRank(c.rank)
  {
    var combos := Combinations(cards, 5);
    FiveCardCombinations(cards);
    var f := EvaluateBestHand(cards).failure;
    var i :| 0 <= i < |combos| && EvaluateEach(combos)[i] == Err(f);
    var c: Card :| c in combos[i] && c.rank !in RankMap && f == UnknownRank(c.rank);
    CombinationCards(cards, combos[i], c);
  }

  /** The best hand is at least as strong as every five cards chosen from
      the hand, and exactly as strong as some of them. */
  lemma BestHandIsMaximal(cards: seq<Card>)
    requires EvaluateBestHand(cards).Ok?
    ensures forall idx :: IsSelection(idx, |cards|) && |idx| == 5 ==>
              EvaluateFiveCardHand(Pick(cards, idx)).Ok?
              && Strength(EvaluateFiveCardHand(Pick(cards, idx)).value)
                 <= Strength(EvaluateBestHand(cards).value)
    ensures exists idx :: IsSelection(idx, |cards|) && |idx| == 5
              && EvaluateFiveCardHand(Pick(cards, idx)) == EvaluateBestHand(cards)
  {
    forall idx | IsSelection(idx, |cards|) && |idx| == 5
      ensures EvaluateFiveCardHand(Pick(cards, idx)).Ok?
      ensures Strength(EvaluateFiveCardHand(Pick(cards, idx)).value)
              <= Strength(EvaluateBestHand(cards).value)
    {
      BestHandBoundsSelection(cards, idx);
    }
    BestHandAttained(cards);
  }

  /** One selection of five cards evaluates, and to no more than the best
      hand. */
  lemma BestHandBoundsSelection(cards: seq<Card>, idx: seq<int>)
    requires EvaluateBestHand(cards).Ok?
    requires IsSelection(idx, |cards|) && |idx| == 5
    ensures EvaluateFiveCardHand(Pick(cards, idx)).Ok?
    ensures Strength(EvaluateFiveCardHand(Pick(cards, idx)).value)
            <= Strength(EvaluateBestHand(cards).value)
  {
    var combos := Combinations(cards, 5);
    SelectionIsCombination(cards, idx);
    var i :| 0 <= i < |combos| && combos[i] == Pick(cards, idx);
    BestHandBoundsCombination(cards, i);
  }

  /** So does each combination. */
  lemma BestHandBoundsCombination(cards: seq<Card>, i: int)
    requires EvaluateBestHand(cards).Ok?
    requires 0 <= i < |Combinations(cards, 5)|
    ensures |Combinations(cards, 5)[i]| == 5
    ensures EvaluateFiveCardHand(Combinations(cards, 5)[i]).Ok?
    ensures Strength(EvaluateFiveCardHand(Combinations(cards, 5)[i]).value)
            <= Strength(EvaluateBestHand(cards).value)
  {
    var combos := Combinations(cards, 5);
    FiveCardCombinations(cards);
    assert combos[i] in combos;
    var rs := EvaluateEach(combos);
    var hs := Collect(rs).value;
    assert EvaluateBestHand(cards) == Ok(MaxByStrength(hs));
    assert rs[i] == Ok(hs[i]);
    assert hs[i] in hs;
  }

  /** Some selection of five cards evaluates to the best hand. */
  lemma BestHandAttained(cards: seq<Card>)
    requires EvaluateBestHand(cards).Ok?
    ensures exists idx :: IsSelection(idx, |cards|) && |idx| == 5
              && EvaluateFiveCardHand(Pick(cards, idx)) == EvaluateBestHand(cards)
  {
    var combos := Combinations(cards, 5);
    FiveCardCombinations(cards);
    var rs := EvaluateEach(combos);
    var hs := Collect(rs).value;
    var best := MaxByStrength(hs);
    assert EvaluateBestHand(cards) == Ok(best);
    var i :| 0 <= i < |hs| && hs[i] == best;
    assert rs[i] == Ok(best);
    assert combos[i] in combos;
    var idx := CombinationIsSelection(cards, 5, combos[i]);
    assert EvaluateFiveCardHand(Pick(cards, idx)) == Ok(best);
  }
}

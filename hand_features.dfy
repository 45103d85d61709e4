/** What both five-card evaluators compute from a hand before they pick a
    category (HandEvaluator.kt:31-45 and FlopEvaluator.kt:11-27 spell out
    the same steps): rank values, sorted ranks, the rank multiplicities in
    descending order, the flush test and the straight test. */
module HandFeatures {
  import opened KotlinRuntime
  import opened Game

  /** `rankMap`: tens are spelled "10"; any other spelling, "T" included,
      is unknown. */
  const RankMap: map<string, int> := map[
    "2" := 2, "3" := 3, "4" := 4, "5" := 5,
    "6" := 6, "7" := 7, "8" := 8, "9" := 9,
    "10" := 10, "J" := 11, "Q" := 12, "K" := 13, "A" := 14]

  function RankValue(rank: string): (v: Option<int>)
    ensures v.Some? <==> rank in RankMap
    ensures v.Some? ==> 2 <= v.value <= 14
  {
    if rank in RankMap then Some(RankMap[rank]) else None
  }

  /** The value of a card whose rank is known (0 otherwise). */
  function KnownValue(c: Card): int {
    match RankValue(c.rank)
    case Some(v) => v
    case None => 0
  }

  /** The rank values of the cards, in card order (meaningful when every
      rank is known). */
  function Values(cards: seq<Card>): seq<int> {
    Map(cards, KnownValue)
  }

  predicate AllRanksKnown(cards: seq<Card>) {
    forall c :: c in cards ==> c.rank in RankMap
  }

  /** `cards.map { rankMap[it.rank] ?: error("Unknown rank ...") }`: the
      values in card order, or the error for the first unknown rank. */
  function RankValues(cards: seq<Card>): (r: Result<seq<int>>)
    ensures r.Ok? <==> AllRanksKnown(cards)
    ensures r.Ok? ==> r.value == Values(cards)
    decreases |cards|
  {
    if cards == [] then Ok([])
    else
      match RankValue(cards[0].rank)
      case None => Err(UnknownRank(cards[0].rank))
      case Some(v) =>
        match RankValues(cards[1..])
        case Err(f) => Err(f)
        case Ok(vs) =>
          assert cards == [cards[0]] + cards[1..];
          assert KnownValue(cards[0]) == v;
          assert forall i :: 0 <= i < |cards| ==>
            Values(cards)[i] == ([v] + Values(cards[1..]))[i];
          Ok([v] + vs)
  }

  /** The error names the first card whose rank is unknown: the card at
      the index returned. */
  lemma {:induction false} RankValuesFirstUnknown(cards: seq<Card>) returns (i: int)
    ensures RankValues(cards).Err? ==>
      0 <= i < |cards| && RankValues(cards).failure == UnknownRank(cards[i].rank)
      && cards[i].rank !in RankMap
      && forall j :: 0 <= j < i ==> cards[j].rank in RankMap
    decreases |cards|
  {
    i := 0;
    if cards != [] && RankValue(cards[0].rank).Some? {
      var rest := cards[1..];
      var k := RankValuesFirstUnknown(rest);
      i := k + 1;
      if RankValues(cards).Err? {
        assert RankValues(cards) == RankValues(rest);
        forall j | 0 <= j < i ensures cards[j].rank in RankMap {
          if j > 0 {
            assert cards[j] == rest[j - 1];
          }
        }
      }
    }
  }

  /** So the error names a card of the hand whose rank is unknown. */
  lemma RankValuesUnknownCard(cards: seq<Card>)
    ensures RankValues(cards).Err? ==>
      exists c :: c in cards && c.rank !in RankMap && RankValues(cards).failure == UnknownRank(c.rank)
  {
    var i := RankValuesFirstUnknown(cards);
    if RankValues(cards).Err? {
      assert cards[i] in cards;
    }
  }

  /** The set of suits; `isFlush` is `suits.toSet().size == 1`. */
  function SuitSet(cards: seq<Card>): set<string> {
    set c | c in cards :: c.suit
  }

  predicate IsFlush(cards: seq<Card>) {
    |SuitSet(cards)| == 1
  }

  // ---- sorting (`sorted()` and `sortedDescending()`) ----

  predicate SortedAsc(s: seq<int>) {
    forall i, j :: 0 <= i < j < |s| ==> s[i] <= s[j]
  }

  predicate SortedDesc(s: seq<int>) {
    forall i, j :: 0 <= i < j < |s| ==> s[i] >= s[j]
  }

  /** One step of insertion sort: `x` placed before the first element of
      `s` it does not exceed. */
  function InsertAsc(x: int, s: seq<int>): (r: seq<int>)
    ensures |r| == |s| + 1
    decreases |s|
  {
    if s == [] || x <= s[0] then [x] + s
    else [s[0]] + InsertAsc(x, s[1..])
  }

  /** Inserting adds `x` to the elements ... */
  lemma {:induction false} InsertAscElements(x: int, s: seq<int>)
    ensures multiset(InsertAsc(x, s)) == multiset(s) + multiset{x}
    decreases |s|
  {
    if s == [] || x <= s[0] {
    } else {
      assert s == [s[0]] + s[1..];
      InsertAscElements(x, s[1..]);
    }
  }

  /** ... and keeps a sorted list sorted. */
  lemma {:induction false} InsertAscSorted(x: int, s: seq<int>)
    requires SortedAsc(s)
    ensures SortedAsc(InsertAsc(x, s))
    decreases |s|
  {
    if s != [] && x > s[0] {
      var t := InsertAsc(x, s[1..]);
      InsertAscSorted(x, s[1..]);
      InsertAscBounded(x, s[1..], s[0]);
      PrependSorted(s[0], t);
    }
  }

  /** A lower bound of `x` and of every element bounds the insertion. */
  lemma InsertAscBounded(x: int, s: seq<int>, lo: int)
    requires lo <= x && forall i :: 0 <= i < |s| ==> lo <= s[i]
    ensures forall i :: 0 <= i < |InsertAsc(x, s)| ==> lo <= InsertAsc(x, s)[i]
  {
    var t := InsertAsc(x, s);
    InsertAscElements(x, s);
    forall i | 0 <= i < |t|
      ensures lo <= t[i]
    {
      assert t[i] in multiset(t);
      if t[i] != x {
        assert t[i] in multiset(s);
        var k :| 0 <= k < |s| && s[k] == t[i];
      }
    }
  }

  /** Putting a lower bound in front of a sorted list keeps it sorted. */
  lemma PrependSorted(lo: int, t: seq<int>)
    requires SortedAsc(t) && forall i :: 0 <= i < |t| ==> lo <= t[i]
    ensures SortedAsc([lo] + t)
  {
    var r := [lo] + t;
    forall i, j | 0 <= i < j < |r|
      ensures r[i] <= r[j]
    {
      assert r[j] == t[j - 1];
      if i > 0 {
        assert r[i] == t[i - 1];
      }
    }
  }

  /** `sorted()`: an ascending rearrangement of `s`. */
  function SortAsc(s: seq<int>): (r: seq<int>)
    ensures |r| == |s|
    ensures SortedAsc(r)
    ensures multiset(r) == multiset(s)
    decreases |s|
  {
    if s == [] then []
    else
      assert s == [s[0]] + s[1..];
      var t := SortAsc(s[1..]);
      InsertAscElements(s[0], t);
      InsertAscSorted(s[0], t);
      InsertAsc(s[0], t)
  }

  function Reverse(s: seq<int>): (r: seq<int>)
    ensures |r| == |s|
    ensures forall i :: 0 <= i < |s| ==> r[i] == s[|s| - 1 - i]
    ensures multiset(r) == multiset(s)
    decreases |s|
  {
    if s == [] then []
    else
      assert s == [s[0]] + s[1..];
      Reverse(s[1..]) + [s[0]]
  }

  /** `sortedDescending()`: a descending rearrangement of `s`. */
  function SortDesc(s: seq<int>): (r: seq<int>)
    ensures SortedDesc(r)
    ensures multiset(r) == multiset(s)
  {
    Reverse(SortAsc(s))
  }

  /** A sorted list is determined by its elements: two ascending lists that
      are rearrangements of each other are equal. */
  lemma {:induction false} SortedUnique(a: seq<int>, b: seq<int>)
    requires SortedAsc(a) && SortedAsc(b)
    requires multiset(a) == multiset(b)
    ensures a == b
    decreases |a|
  {
    assert |b| == |multiset(b)| == |multiset(a)| == |a|;
    if a != [] {
      SortedHeads(a, b);
      SortedTail(a);
      SortedTail(b);
      TailElements(a);
      TailElements(b);
      SortedUnique(a[1..], b[1..]);
      forall i | 0 <= i < |a|
        ensures a[i] == b[i]
      {
        if i > 0 {
          assert a[i] == a[1..][i - 1] && b[i] == b[1..][i - 1];
        }
      }
    }
  }

  /** Two ascending rearrangements of each other start with the same
      (least) element. */
  lemma SortedHeads(a: seq<int>, b: seq<int>)
    requires SortedAsc(a) && SortedAsc(b) && a != [] && b != []
    requires multiset(a) == multiset(b)
    ensures a[0] == b[0]
  {
    assert a[0] in multiset(b) && b[0] in multiset(a);
    var i :| 0 <= i < |b| && b[i] == a[0];
    var j :| 0 <= j < |a| && a[j] == b[0];
    assert b[0] <= b[i] && a[0] <= a[j];
  }

  lemma SortedTail(a: seq<int>)
    requires SortedAsc(a) && a != []
    ensures SortedAsc(a[1..])
  {
    forall i, j | 0 <= i < j < |a[1..]|
      ensures a[1..][i] <= a[1..][j]
    {
      assert a[1..][i] == a[i + 1] && a[1..][j] == a[j + 1];
    }
  }

  lemma TailElements(a: seq<int>)
    requires a != []
    ensures multiset(a[1..]) == multiset(a) - multiset{a[0]}
  {
    assert a == [a[0]] + a[1..];
  }

  /** Rearranging the input does not change `sorted()`. */
  lemma SortAscPermutation(a: seq<int>, b: seq<int>)
    requires multiset(a) == multiset(b)
    ensures SortAsc(a) == SortAsc(b)
  {
    SortedUnique(SortAsc(a), SortAsc(b));
  }

  // ---- rank multiplicities (`groupingBy { it }.eachCount().values`) ----

  predicate NoDuplicates(s: seq<int>) {
    forall i, j :: 0 <= i < j < |s| ==> s[i] != s[j]
  }

  /** The keys of `groupingBy { it }`: each value once, in the order of its
      first occurrence. */
  function Distinct(xs: seq<int>): (d: seq<int>)
    ensures forall x :: x in d <==> x in xs
    ensures NoDuplicates(d)
    decreases |xs|
  {
    if xs == [] then []
    else
      var init := xs[..|xs| - 1];
      var x := xs[|xs| - 1];
      assert xs == init + [x];
      var p := Distinct(init);
      if x in p then p else p + [x]
  }

  /** `eachCount().values`: how often each distinct value occurs. */
  function Counts(xs: seq<int>): seq<int> {
    Map(Distinct(xs), (v: int) => multiset(xs)[v])
  }

  /** `rankCounts`: the multiplicities, largest first. */
  function RankCounts(xs: seq<int>): seq<int> {
    SortDesc(Counts(xs))
  }

  /** A duplicate-free list holds each of its elements once. */
  lemma {:induction false} NoDuplicatesOnce(s: seq<int>, x: int)
    requires NoDuplicates(s)
    ensures multiset(s)[x] == if x in s then 1 else 0
    decreases |s|
  {
    if s != [] {
      assert s == [s[0]] + s[1..];
      NoDuplicatesOnce(s[1..], x);
    }
  }

  /** The multiplicities of two rearrangements are rearrangements of each
      other. */
  lemma CountsPermutation(xs: seq<int>, ys: seq<int>)
    requires multiset(xs) == multiset(ys)
    ensures multiset(Counts(xs)) == multiset(Counts(ys))
  {
    var dx, dy := Distinct(xs), Distinct(ys);
    forall x ensures multiset(dx)[x] == multiset(dy)[x] {
      NoDuplicatesOnce(dx, x);
      NoDuplicatesOnce(dy, x);
      assert x in xs <==> x in multiset(ys);
    }
    assert multiset(dx) == multiset(dy);
    var f := (v: int) => multiset(xs)[v];
    var g := (v: int) => multiset(ys)[v];
    assert f == g;
    MapPermutation(dx, dy, f);
  }

  /** Rearranging the ranks does not change `rankCounts`. */
  lemma RankCountsPermutation(xs: seq<int>, ys: seq<int>)
    requires multiset(xs) == multiset(ys)
    ensures RankCounts(xs) == RankCounts(ys)
  {
    CountsPermutation(xs, ys);
    SortAscPermutation(Counts(xs), Counts(ys));
  }

  lemma {:induction false} AllEqualCount(xs: seq<int>, d: int)
    requires forall x :: x in xs ==> x == d
    ensures multiset(xs)[d] == |xs|
    decreases |xs|
  {
    if xs != [] {
      assert xs == [xs[0]] + xs[1..];
      assert forall x :: x in xs[1..] ==> x in xs;
      assert xs[0] in xs;
      assert xs[0] == d;
      AllEqualCount(xs[1..], d);
      assert multiset(xs) == multiset{d} + multiset(xs[1..]);
      assert |xs| == 1 + |xs[1..]|;
    }
  }

  /** `rankCounts` has an entry for every distinct rank; a single entry
      counts the whole hand. This is why `rankCounts[0]` exists for a
      non-empty hand, and why `rankCounts[1]` exists whenever a five-card
      hand's top count is 2 or 3. */
  lemma RankCountsShape(xs: seq<int>)
    requires xs != []
    ensures |RankCounts(xs)| >= 1
    ensures |RankCounts(xs)| == 1 ==> RankCounts(xs)[0] == |xs|
  {
    var d := Distinct(xs);
    assert xs[0] in d;
    if |d| == 1 {
      AllEqualCount(xs, d[0]);
      assert Counts(xs) == [|xs|];
      assert RankCounts(xs)[0] in multiset(Counts(xs));
    }
  }

  /** No value occurs more often than the list is long. */
  lemma {:induction false} MultiplicityBound(xs: seq<int>, v: int)
    ensures multiset(xs)[v] <= |xs|
    decreases |xs|
  {
    if xs != [] {
      assert xs == [xs[0]] + xs[1..];
      MultiplicityBound(xs[1..], v);
    }
  }

  /** Every entry of `rankCounts` counts a rank that occurs, so it lies
      between 1 and the number of cards. */
  lemma RankCountsBounds(xs: seq<int>)
    ensures forall i :: 0 <= i < |RankCounts(xs)| ==> 1 <= RankCounts(xs)[i] <= |xs|
  {
    forall i | 0 <= i < |RankCounts(xs)| ensures 1 <= RankCounts(xs)[i] <= |xs| {
      var c := RankCounts(xs)[i];
      assert c in multiset(RankCounts(xs));
      assert c in Counts(xs);
      var k :| 0 <= k < |Counts(xs)| && Counts(xs)[k] == c;
      CountAt(xs, k);
      MultiplicityBound(xs, Distinct(xs)[k]);
    }
  }

  // ---- straights ----

  /** `zipWithNext().all { (a, b) -> b == a + 1 }`: each value is one
      more than the one before. */
  predicate Consecutive(s: seq<int>)
    decreases |s|
  {
    |s| <= 1 || (s[1] == s[0] + 1 && Consecutive(s[1..]))
  }

  /** A consecutive run counts up from its first value. */
  lemma {:induction false} ConsecutiveOffsets(s: seq<int>)
    requires Consecutive(s)
    ensures forall i :: 0 <= i < |s| ==> s[i] == s[0] + i
    decreases |s|
  {
    if |s| > 1 {
      ConsecutiveOffsets(s[1..]);
      assert forall i :: 1 <= i < |s| ==> s[i] == s[1..][i - 1];
    }
  }

  /** `isStraight` on the sorted ranks, the wheel A-2-3-4-5 included. */
  predicate IsStraight(sortedRanks: seq<int>) {
    Consecutive(sortedRanks) || sortedRanks == [2, 3, 4, 5, 14]
  }

  /** A straight, the wheel included, has no repeated value. */
  lemma StraightNoDuplicates(s: seq<int>)
    requires IsStraight(s)
    ensures NoDuplicates(s)
  {
    if Consecutive(s) {
      ConsecutiveOffsets(s);
    }
  }

  /** When no value repeats, every multiplicity is 1. */
  lemma NoRepeatsCountsOne(xs: seq<int>)
    requires xs != []
    requires forall x :: multiset(xs)[x] <= 1
    ensures RankCounts(xs)[0] == 1
  {
    var k := TopCount(xs);
    CountAt(xs, k);
    assert multiset(xs)[Distinct(xs)[k]] <= 1;
  }

  /** The largest multiplicity is one of the multiplicities. */
  lemma TopCount(xs: seq<int>) returns (k: nat)
    requires xs != []
    ensures |RankCounts(xs)| >= 1 && k < |Counts(xs)| && Counts(xs)[k] == RankCounts(xs)[0]
  {
    RankCountsShape(xs);
    var counts, rc := Counts(xs), RankCounts(xs);
    assert rc[0] in multiset(rc);
    assert rc[0] in counts;
    k :| 0 <= k < |counts| && counts[k] == rc[0];
  }

  /** Each entry of the multiplicities counts a rank that occurs. */
  lemma CountAt(xs: seq<int>, k: nat)
    requires k < |Counts(xs)|
    ensures Counts(xs)[k] == multiset(xs)[Distinct(xs)[k]] >= 1
  {
    assert Distinct(xs)[k] in xs;
  }

  /** A straight has five different ranks, so every rank count is 1. */
  lemma StraightHasNoPairs(xs: seq<int>)
    requires xs != []
    requires IsStraight(SortAsc(xs))
    ensures RankCounts(xs)[0] == 1
  {
    var s := SortAsc(xs);
    StraightNoDuplicates(s);
    forall x ensures multiset(xs)[x] <= 1 {
      NoDuplicatesOnce(s, x);
    }
    NoRepeatsCountsOne(xs);
  }
}

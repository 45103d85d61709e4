/** `PreflopBettor.parsePreflopRange` and `mapCardsToPreflopCards`
    (PreflopBettor.kt): a range written in poker shorthand ("A2s+,22+,JTo")
    is expanded into the list of starting hands it names, and two hole
    cards are written as the starting hand they form. Ranks here are the
    thirteen one-character names, highest first, with "T" for ten. */
module PreflopRange {
  import opened KotlinRuntime
  import opened Game

  /** A starting hand: two rank characters, higher first for non-pairs,
      and whether the two cards share a suit. */
  datatype PreflopCard = PreflopCard(rank: string, isSuited: bool)

  /** The characters of `ranks`, highest first. */
  const RankChars: string := "AKQJT98765432"

  /** `ranks`: the thirteen one-character rank names, highest first. */
  const RankNames: seq<string> := ["A", "K", "Q", "J", "T", "9", "8", "7", "6", "5", "4", "3", "2"]

  /** Each rank name is its character. */
  lemma RankNameChar(i: int)
    requires 0 <= i < |RankNames|
    ensures |RankChars| == |RankNames| && RankNames[i] == [RankChars[i]]
  {
  }

  /** `rankIndex`: the position in `ranks`, or -1. Every name in `ranks`
      is one character, so the search runs over those characters. */
  function RankIndex(r: string): (i: int)
    ensures -1 <= i < |RankNames|
    ensures i == -1 <==> r !in RankNames
    ensures i >= 0 ==> RankNames[i] == r
  {
    RankNamesAreChars(r);
    if |r| == 1 then IndexOf(RankChars, r[0]) else -1
  }

  /** A string is a rank name exactly when it is one rank character. */
  lemma RankNamesAreChars(r: string)
    ensures r in RankNames <==> |r| == 1 && r[0] in RankChars
    ensures |r| == 1 && r[0] in RankChars ==> RankNames[IndexOf(RankChars, r[0])] == r
  {
    if r in RankNames {
      var i :| 0 <= i < |RankNames| && RankNames[i] == r;
      RankNameChar(i);
    }
    if |r| == 1 && r[0] in RankChars {
      var i := IndexOf(RankChars, r[0]);
      RankNameChar(i);
      assert r == [r[0]];
    }
  }

  /** The rank characters are pairwise distinct. */
  lemma RankCharsDistinct(i: int, j: int)
    requires 0 <= i < |RankChars| && 0 <= j < |RankChars|
    ensures RankChars[i] == RankChars[j] <==> i == j
  {
  }

  /** So each rank name is found at its own position. */
  lemma RankIndexOf(h: int)
    requires 0 <= h < |RankNames|
    ensures RankNames[h] == [RankChars[h]]
    ensures RankIndex(RankNames[h]) == h
  {
    var i := RankIndex(RankNames[h]);
    RankNameChar(i);
    RankNameChar(h);
    assert RankChars[i] == RankNames[i][0];
    RankCharsDistinct(i, h);
  }

  // ---- one comma-separated part ----

  /** The part's last character, or the one before a final "+", is `l`. */
  predicate TypeLetter(clean: string, l: char) {
    |clean| >= 1
    && (clean[|clean| - 1] == l || (|clean| >= 2 && clean[|clean| - 2] == l && clean[|clean| - 1] == '+'))
  }

  /** The `type` of a part: "s" when it ends in "s" or "s+", otherwise "o"
      when it ends in "o" or "o+", otherwise "" (both suited and offsuit). */
  function Kind(clean: string): (kind: string)
    ensures kind == "s" || kind == "o" || kind == ""
    ensures kind == "s" <==> TypeLetter(clean, 's')
    ensures kind == "o" <==> !TypeLetter(clean, 's') && TypeLetter(clean, 'o')
    ensures kind == "" <==> !TypeLetter(clean, 's') && !TypeLetter(clean, 'o')
  {
    TypeLetterEndsWith(clean, 's');
    TypeLetterEndsWith(clean, 'o');
    if EndsWith(clean, "s+") || EndsWith(clean, "s") then "s"
    else if EndsWith(clean, "o+") || EndsWith(clean, "o") then "o"
    else ""
  }

  /** The suffixes `Kind` tests for a letter are its TypeLetter. */
  lemma TypeLetterEndsWith(clean: string, l: char)
    ensures TypeLetter(clean, l) <==> EndsWith(clean, [l, '+']) || EndsWith(clean, [l])
  {
    EndsWithLastTwo(clean, l, '+');
    EndsWithLast(clean, l);
  }

  /** `main`: the part with a trailing "+", then "s", then "o" removed, one
      after the other. */
  function MainOf(clean: string): string {
    RemoveSuffix(RemoveSuffix(RemoveSuffix(clean, "+"), "s"), "o")
  }

  /** The hands one loop step adds for index `i`: a pair of `ranks[i]`
      (never suited), or `r1` with `ranks[i]` as suited, offsuit or both. */
  function CardsAt(r1: string, i: int, kind: string, pair: bool): seq<PreflopCard>
    requires 0 <= i < |RankNames|
  {
    if pair then [PreflopCard(RankNames[i] + RankNames[i], false)]
    else
      var hand := r1 + RankNames[i];
      if kind == "s" then [PreflopCard(hand, true)]
      else if kind == "o" then [PreflopCard(hand, false)]
      else if kind == "" then [PreflopCard(hand, true), PreflopCard(hand, false)]
      else []
  }

  /** The hands of one loop step: for a pair, the pair of `ranks[i]`;
      otherwise `r1` followed by `ranks[i]`, suited when the type says "s",
      offsuit when it says "o", both when it is empty. */
  lemma CardsAtMembers(r1: string, i: int, kind: string, pair: bool, c: PreflopCard)
    requires 0 <= i < |RankNames|
    requires kind == "s" || kind == "o" || kind == ""
    ensures c in CardsAt(r1, i, kind, pair) <==>
              if pair then c == PreflopCard(RankNames[i] + RankNames[i], false)
              else c.rank == r1 + RankNames[i] && (kind == "s" ==> c.isSuited) && (kind == "o" ==> !c.isSuited)
  {
  }

  /** `for (i in start downTo end)`: the hands for `start`, `start - 1`,
      ..., `end`; `ranks[i]` with an index outside the list throws. */
  function Expand(r1: string, start: int, end: int, kind: string, pair: bool): Result<seq<PreflopCard>>
    decreases start - end + 1
  {
    if start < end then Ok([])
    else if !(0 <= start < |RankNames|) then Err(IndexOutOfBounds)
    else Extend(CardsAt(r1, start, kind, pair), Expand(r1, start - 1, end, kind, pair))
  }

  /** The body of the loop over the parts, for one part: blank parts
      are skipped. */
  function PartCards(part: string): Result<seq<PreflopCard>> {
    var clean := Trim(part);
    if clean == [] then Ok([])
    else MainCards(MainOf(clean), EndsWith(clean, "+"), Kind(clean))
  }

  /** A part with its `main`, whether it ends in "+", and its `type`: only
      a two-character `main` names hands. */
  function MainCards(main: string, plus: bool, kind: string): Result<seq<PreflopCard>> {
    if |main| != 2 then Ok([])
    else
      var r1 := [main[0]];
      var r2 := [main[1]];
      if r1 == r2 then
        var start := RankIndex(r1);
        Expand(r1, start, if plus then 0 else start, kind, true)
      else
        var start := RankIndex(r2);
        Expand(r1, start, if plus then RankIndex(r1) + 1 else start, kind, false)
  }

  /** What `parsePreflopRange(range)` returns or throws. */
  function ParseRange(range: string): Result<seq<PreflopCard>> {
    FlatMap(Split(range, ','), PartCards)
  }

  /** One turn of a `downTo` loop. */
  lemma ExpandStep(r1: string, i: int, end: int, kind: string, pair: bool, done: seq<PreflopCard>)
    requires end <= i < |RankNames| && 0 <= i
    ensures Extend(done, Expand(r1, i, end, kind, pair))
            == Extend(done + CardsAt(r1, i, kind, pair), Expand(r1, i - 1, end, kind, pair))
  {
    ExtendTwice(done, CardsAt(r1, i, kind, pair), Expand(r1, i - 1, end, kind, pair));
  }

  /** One pass of the loop over the parts: the part's hands are added to
      `result`, or the part's exception is raised. */
  method AddPart(part: string, result: seq<PreflopCard>) returns (r: Result<seq<PreflopCard>>)
    ensures r == Extend(result, PartCards(part))
  {
    var clean := Trim(part);
    if clean == [] {
      assert result + [] == result;
      r := Ok(result);
    } else {
      var plus := EndsWith(clean, "+");
      var kind := Kind(clean);
      var main := MainOf(clean);
      assert PartCards(part) == MainCards(main, plus, kind);
      r := AddMain(main, plus, kind, result);
    }
  }

  /** The rest of the pass once `main`, `plus` and `type` are known. */
  method AddMain(main: string, plus: bool, kind: string, result: seq<PreflopCard>)
    returns (r: Result<seq<PreflopCard>>)
    ensures r == Extend(result, MainCards(main, plus, kind))
  {
    if |main| != 2 {
      assert result + [] == result;
      r := Ok(result);
    } else {
      var start := RunStart(main);
      var end := RunEnd(main, plus);
      r := AddRun([main[0]], start, end, kind, main[0] == main[1], result);
      RunResult(main, plus, kind, result, r);
    }
  }

  /** Where the `downTo` loop of a two-character `main` starts: at the
      rank of a pair, or at the second rank of any other hand. */
  function RunStart(main: string): int
    requires |main| == 2
  {
    if main[0] == main[1] then RankIndex([main[0]]) else RankIndex([main[1]])
  }

  /** Where it ends: where it starts without "+"; with "+", at the aces
      for a pair and just below the first rank for any other hand. */
  function RunEnd(main: string, plus: bool): int
    requires |main| == 2
  {
    if !plus then RunStart(main) else if main[0] == main[1] then 0 else RankIndex([main[0]]) + 1
  }

  /** A two-character `main` is one `downTo` loop from RunStart to RunEnd. */
  lemma MainRun(main: string, plus: bool, kind: string)
    requires |main| == 2
    ensures MainCards(main, plus, kind) == Expand([main[0]], RunStart(main), RunEnd(main, plus), kind, main[0] == main[1])
  {
    assert [main[0]] == [main[1]] <==> main[0] == main[1];
  }

  /** So the run's result is the pass's. */
  lemma RunResult(main: string, plus: bool, kind: string, result: seq<PreflopCard>, r: Result<seq<PreflopCard>>)
    requires |main| == 2
    requires r == Extend(result, Expand([main[0]], RunStart(main), RunEnd(main, plus), kind, main[0] == main[1]))
    ensures r == Extend(result, MainCards(main, plus, kind))
  {
    MainRun(main, plus, kind);
  }

  /** The `for (i in start downTo end)` loop of one part. */
  method AddRun(r1: string, start: int, end: int, kind: string, pair: bool, result0: seq<PreflopCard>)
    returns (r: Result<seq<PreflopCard>>)
    ensures r == Extend(result0, Expand(r1, start, end, kind, pair))
  {
    var result := result0;
    var i := start;
    while i >= end
      invariant i <= start
      invariant Extend(result, Expand(r1, i, end, kind, pair))
                == Extend(result0, Expand(r1, start, end, kind, pair))
      decreases i - end
    {
      if !(0 <= i < |RankNames|) {
        return Err(IndexOutOfBounds);
      }
      ExpandStep(r1, i, end, kind, pair, result);
      ghost var step := result + CardsAt(r1, i, kind, pair);
      if pair {
        result := result + [PreflopCard(RankNames[i] + RankNames[i], false)];
      } else {
        var hand := r1 + RankNames[i];
        if kind == "s" {
          result := result + [PreflopCard(hand, true)];
        } else if kind == "o" {
          result := result + [PreflopCard(hand, false)];
        } else if kind == "" {
          result := result + [PreflopCard(hand, true)];
          result := result + [PreflopCard(hand, false)];
        }
      }
      assert result == step;
      i := i - 1;
    }
    assert result + [] == result;
    return Ok(result);
  }

  /** `parsePreflopRange`: the ranks of `range` split at the commas, then
      the loop of the source over the parts, proved to compute ParseRange. */
  method ParsePreflopRange(range: string) returns (r: Result<seq<PreflopCard>>)
    ensures r == ParseRange(range)
  {
    var parts := Split(range, ',');
    r := ParseParts(parts);
  }

  /** The loop over the parts: each part's hands are added in turn, and the
      first part that throws ends the parse. */
  method ParseParts(parts: seq<string>) returns (r: Result<seq<PreflopCard>>)
    ensures r == FlatMap(parts, PartCards)
  {
    r := Ok([]);
    var k := 0;
    FlatMapStart(parts, PartCards);
    while k < |parts| && r.Ok?
      invariant 0 <= k <= |parts|
      invariant PartsSoFar(parts, k, r)
    {
      var next := AddPart(parts[k], r.value);
      ParseStep(parts, k, r, next);
      r := next;
      k := k + 1;
    }
    if r.Ok? {
      FlatMapEnd(parts, PartCards, r.value);
    }
  }

  /** What the loop over the parts keeps: with the parts before `k` done,
      the hands collected followed by those of the remaining parts are the
      whole parse, and an exception already raised is the parse's. */
  ghost predicate PartsSoFar(parts: seq<string>, k: int, r: Result<seq<PreflopCard>>)
    requires 0 <= k <= |parts|
  {
    if r.Ok? then Extend(r.value, FlatMap(parts[k..], PartCards)) == FlatMap(parts, PartCards)
    else r == FlatMap(parts, PartCards)
  }

  /** One turn of that loop: an error of the part is the error of the
      whole, otherwise the part's hands join those collected. */
  lemma ParseStep(parts: seq<string>, k: int, r: Result<seq<PreflopCard>>, next: Result<seq<PreflopCard>>)
    requires 0 <= k < |parts| && r.Ok? && PartsSoFar(parts, k, r)
    requires next == Extend(r.value, PartCards(parts[k]))
    ensures PartsSoFar(parts, k + 1, next)
  {
    FlatMapStep(parts, PartCards, k, r.value);
  }

  // ---- what a range names ----

  /** How many hands one loop step adds. */
  function Width(kind: string, pair: bool): nat {
    if pair || kind == "s" || kind == "o" then 1 else if kind == "" then 2 else 0
  }

  /** A `downTo` loop whose indices all lie in `ranks` throws nothing and
      adds as many hands per index as its kind asks for. */
  lemma {:induction false} ExpandLength(r1: string, start: int, end: int, kind: string, pair: bool)
    requires 0 <= end && start < |RankNames|
    ensures Expand(r1, start, end, kind, pair).Ok?
    ensures |Expand(r1, start, end, kind, pair).value|
            == (if start < end then 0 else (start - end + 1) * Width(kind, pair))
    decreases start - end + 1
  {
    if start >= end {
      ExpandLength(r1, start - 1, end, kind, pair);
      var here := CardsAt(r1, start, kind, pair);
      var w := Width(kind, pair);
      assert |here| == w;
      var n := start - end;
      assert (n + 1) * w == n * w + w;
    }
  }

  /** The hands of such a loop are exactly those of each index from
      `start` down to `end`. */
  lemma {:induction false} ExpandMembers(r1: string, start: int, end: int, kind: string, pair: bool)
    requires 0 <= end && start < |RankNames|
    ensures Expand(r1, start, end, kind, pair).Ok?
    ensures forall c :: c in Expand(r1, start, end, kind, pair).value <==>
              exists j :: end <= j <= start && c in CardsAt(r1, j, kind, pair)
    decreases start - end + 1
  {
    if start >= end {
      ExpandMembers(r1, start - 1, end, kind, pair);
      var rest := Expand(r1, start - 1, end, kind, pair).value;
      var here := CardsAt(r1, start, kind, pair);
      forall c
        ensures c in here + rest <==> exists j :: end <= j <= start && c in CardsAt(r1, j, kind, pair)
      {
        ExpandMembersStep(r1, start, end, kind, pair, here, rest, c);
      }
    }
  }

  /** One index more in a `downTo` loop. */
  lemma ExpandMembersStep(r1: string, start: int, end: int, kind: string, pair: bool,
                          here: seq<PreflopCard>, rest: seq<PreflopCard>, c: PreflopCard)
    requires 0 <= end <= start < |RankNames|
    requires here == CardsAt(r1, start, kind, pair)
    requires forall c :: c in rest <==> exists j :: end <= j <= start - 1 && c in CardsAt(r1, j, kind, pair)
    ensures c in here + rest <==> exists j :: end <= j <= start && c in CardsAt(r1, j, kind, pair)
  {
    if c in here {
      assert c in CardsAt(r1, start, kind, pair);
    } else if c in rest {
      var j :| end <= j <= start - 1 && c in CardsAt(r1, j, kind, pair);
    } else {
      forall j | end <= j <= start
        ensures c !in CardsAt(r1, j, kind, pair)
      {
        if j < start {
          assert !(end <= j <= start - 1 && c in CardsAt(r1, j, kind, pair));
        }
      }
    }
  }

  /** A part throws exactly when it is a two-rank part without "+" whose
      second rank is not a rank name: the loop then reads `ranks[-1]`. */
  lemma PartFails(part: string)
    ensures PartCards(part).Err? <==>
              Trim(part) != [] && |MainOf(Trim(part))| == 2 && !EndsWith(Trim(part), "+")
              && RankIndex([MainOf(Trim(part))[1]]) == -1
    ensures PartCards(part).Err? ==> PartCards(part).failure == IndexOutOfBounds
  {
    var clean := Trim(part);
    if clean != [] {
      MainFails(MainOf(clean), EndsWith(clean, "+"), Kind(clean));
    }
  }

  /** The same for a part's `main`, `plus` and `type`. */
  lemma MainFails(main: string, plus: bool, kind: string)
    ensures MainCards(main, plus, kind).Err? <==> |main| == 2 && !plus && RankIndex([main[1]]) == -1
    ensures MainCards(main, plus, kind).Err? ==> MainCards(main, plus, kind).failure == IndexOutOfBounds
  {
    if |main| == 2 {
      var r1, r2 := [main[0]], [main[1]];
      var pair := main[0] == main[1];
      var start, end := RunStart(main), RunEnd(main, plus);
      MainRun(main, plus, kind);
      if pair {
        assert r1 == r2;
      }
      if end >= 0 {
        ExpandLength(r1, start, end, kind, pair);
      }
    }
  }

  /** A range throws exactly when one of its parts does, and otherwise
      names exactly the hands its parts name. */
  lemma RangeMeaning(range: string)
    ensures ParseRange(range).Err? <==>
              exists p :: p in Split(range, ',') && PartCards(p).Err?
    ensures ParseRange(range).Ok? ==> forall c :: c in ParseRange(range).value <==>
              exists p :: p in Split(range, ',') && PartCards(p).Ok? && c in PartCards(p).value
  {
    var parts := Split(range, ',');
    FlatMapMeaning(parts, PartCards);
    if ParseRange(range).Err? {
      var i :| 0 <= i < |parts| && PartCards(parts[i]).Err?;
      assert parts[i] in parts;
    } else {
      forall c | c in ParseRange(range).value
        ensures exists p :: p in parts && PartCards(p).Ok? && c in PartCards(p).value
      {
        var i :| 0 <= i < |parts| && PartCards(parts[i]).Ok? && c in PartCards(parts[i]).value;
        assert parts[i] in parts;
      }
    }
  }

  /** A range written as two ranges joined by a comma names the hands of
      both, in order; the first exception wins. */
  lemma RangeConcat(x: string, y: string)
    ensures ParseRange(x + "," + y)
            == if ParseRange(x).Err? then ParseRange(x) else Extend(ParseRange(x).value, ParseRange(y))
  {
    SplitAppend(x, y, ',');
    FlatMapAppend(Split(x, ','), Split(y, ','), PartCards);
  }

  // ---- parts written with the thirteen rank names ----

  /** The rank characters are none of the characters the parser treats
      specially. */
  lemma RankChar(h: int)
    requires 0 <= h < |RankChars|
    ensures var x := RankChars[h];
      !IsWhitespace(x) && x != 's' && x != 'o' && x != '+' && x != ','
  {
  }

  /** `c` is the pocket pair of `ranks[j]`. */
  predicate IsPairOf(c: PreflopCard, j: int) {
    0 <= j < |RankNames| && c == PreflopCard(RankNames[j] + RankNames[j], false)
  }

  /** The text of a pair part for `ranks[h]`, with or without "+". */
  function PairText(h: int, plus: bool): string
    requires 0 <= h < |RankNames|
  {
    var x := RankChars[h];
    if plus then [x, x, '+'] else [x, x]
  }

  /** Trimming and `removeSuffix` leave the two rank characters as the
      `main` of a pair part. */
  lemma PairPartText(x: char, plus: bool, t: string)
    requires !IsWhitespace(x) && x != 's' && x != 'o' && x != '+'
    requires t == if plus then [x, x, '+'] else [x, x]
    ensures Trim(t) == t && MainOf(t) == [x, x] && EndsWith(t, "+") == plus
  {
    assert Trim(t) == t;
    EndsWithLast(t, '+');
    var noPlus := RemoveSuffix(t, "+");
    assert noPlus == [x, x];
    EndsWithLast(noPlus, 's');
    EndsWithLast(noPlus, 'o');
  }

  /** A pair `main` is one `downTo` loop from its rank up to "A" (with
      "+") or over its rank alone. */
  lemma PairMain(x: char, plus: bool, kind: string, h: int)
    requires RankIndex([x]) == h
    ensures MainCards([x, x], plus, kind) == Expand([x], h, if plus then 0 else h, kind, true)
  {
  }

  /** So a pair part is that loop. */
  lemma PairPartLoop(h: int, plus: bool)
    requires 0 <= h < |RankNames|
    ensures PartCards(PairText(h, plus))
            == Expand(RankNames[h], h, if plus then 0 else h, Kind(PairText(h, plus)), true)
  {
    var t := PairText(h, plus);
    var x := RankChars[h];
    RankIndexOf(h);
    RankChar(h);
    PairPartText(x, plus, t);
    assert PartCards(t) == MainCards([x, x], plus, Kind(t));
    PairMain(x, plus, Kind(t), h);
  }

  /** The loop of a pair part names the pairs of `ranks[lo]` to
      `ranks[hi]`, none of them suited. */
  lemma PairRun(r1: string, hi: int, lo: int, kind: string)
    requires 0 <= lo && hi < |RankNames|
    requires kind == "s" || kind == "o" || kind == ""
    ensures Expand(r1, hi, lo, kind, true).Ok?
    ensures forall c :: c in Expand(r1, hi, lo, kind, true).value ==> exists j :: lo <= j <= hi && IsPairOf(c, j)
    ensures forall j :: lo <= j <= hi ==>
              PreflopCard(RankNames[j] + RankNames[j], false) in Expand(r1, hi, lo, kind, true).value
  {
    ExpandMembers(r1, hi, lo, kind, true);
    var v := Expand(r1, hi, lo, kind, true).value;
    forall c | c in v
      ensures exists j :: lo <= j <= hi && IsPairOf(c, j)
    {
      var j :| lo <= j <= hi && c in CardsAt(r1, j, kind, true);
      assert IsPairOf(c, j);
    }
    forall j | lo <= j <= hi
      ensures PreflopCard(RankNames[j] + RankNames[j], false) in v
    {
      assert PreflopCard(RankNames[j] + RankNames[j], false) in CardsAt(r1, j, kind, true);
    }
  }

  /** A pair part "XX" names only the pair of X; "XX+" names only pairs
      of X or a higher rank. Neither is ever suited. */
  lemma PairPartNames(h: int, plus: bool, t: string)
    requires 0 <= h < |RankNames| && t == PairText(h, plus)
    ensures PartCards(t).Ok?
    ensures forall c :: c in PartCards(t).value ==> exists j :: (if plus then 0 else h) <= j <= h && IsPairOf(c, j)
  {
    var kind := Kind(t);
    PairPartLoop(h, plus);
    PairRun(RankNames[h], h, if plus then 0 else h, kind);
  }

  /** ... and names every one of them. */
  lemma PairPartCovers(h: int, plus: bool, t: string)
    requires 0 <= h < |RankNames| && t == PairText(h, plus)
    ensures PartCards(t).Ok?
    ensures forall j :: (if plus then 0 else h) <= j <= h ==>
              PreflopCard(RankNames[j] + RankNames[j], false) in PartCards(t).value
  {
    var kind := Kind(t);
    PairPartLoop(h, plus);
    PairRun(RankNames[h], h, if plus then 0 else h, kind);
  }

  /** `c` is `r1` with `ranks[j]`, suited or offsuit. */
  predicate IsHandOf(c: PreflopCard, r1: string, j: int, suited: bool) {
    0 <= j < |RankNames| && c == PreflopCard(r1 + RankNames[j], suited)
  }

  /** The `type` a two-rank part written with "s" or "o" has. */
  function KindOf(suited: bool): string {
    if suited then "s" else "o"
  }

  /** The text of a two-rank part: `ranks[h1]`, `ranks[h2]`, "s" or "o",
      and an optional "+". */
  function TwoRankText(h1: int, h2: int, suited: bool, plus: bool): string
    requires 0 <= h1 < |RankNames| && 0 <= h2 < |RankNames|
  {
    var l := if suited then 's' else 'o';
    if plus then [RankChars[h1], RankChars[h2], l, '+'] else [RankChars[h1], RankChars[h2], l]
  }

  /** Trimming, the suffix checks and `removeSuffix` leave the two rank
      characters as the `main` of a two-rank part; its `type` is its
      suit letter. */
  lemma TwoRankPartText(x: char, y: char, l: char, plus: bool, t: string)
    requires !IsWhitespace(x) && x != 's' && x != 'o' && x != '+'
    requires y != 's' && y != 'o' && y != '+'
    requires l == 's' || l == 'o'
    requires t == if plus then [x, y, l, '+'] else [x, y, l]
    ensures Trim(t) == t && MainOf(t) == [x, y] && EndsWith(t, "+") == plus
    ensures Kind(t) == [l]
  {
    assert Trim(t) == t;
    EndsWithLast(t, '+');
    assert RemoveSuffix(t, "+") == [x, y, l];
    SuitLetterStripped(x, y, l);
    SuitLetterKind(l, t);
  }

  /** Removing "s" and then "o" from a two-rank `main` and its suit
      letter leaves the two ranks. */
  lemma SuitLetterStripped(x: char, y: char, l: char)
    requires y != 's' && y != 'o'
    requires l == 's' || l == 'o'
    ensures RemoveSuffix(RemoveSuffix([x, y, l], "s"), "o") == [x, y]
  {
    EndsWithLast([x, y, l], 's');
    var noS := RemoveSuffix([x, y, l], "s");
    assert noS == if l == 's' then [x, y] else [x, y, l];
    EndsWithLast(noS, 'o');
  }

  /** The `type` of a part ending in its suit letter, with or without
      "+", is that letter. */
  lemma SuitLetterKind(l: char, t: string)
    requires l == 's' || l == 'o'
    requires |t| >= 2 && (t[|t| - 1] == l || (t[|t| - 2] == l && t[|t| - 1] == '+'))
    ensures Kind(t) == [l]
  {
    assert TypeLetter(t, l);
    if l == 'o' {
      assert !TypeLetter(t, 's');
    }
  }

  /** A two-rank `main` is one `downTo` loop over the second rank, from
      its own index up to just below the first rank (with "+") or over the
      second rank alone. */
  lemma TwoRankMain(x: char, y: char, plus: bool, kind: string, h1: int, h2: int)
    requires x != y && RankIndex([x]) == h1 && RankIndex([y]) == h2
    ensures MainCards([x, y], plus, kind) == Expand([x], h2, if plus then h1 + 1 else h2, kind, false)
  {
    assert [x] != [y];
  }

  /** So a two-rank part is that loop. */
  lemma TwoRankPartLoop(h1: int, h2: int, suited: bool, plus: bool)
    requires 0 <= h1 < |RankNames| && 0 <= h2 < |RankNames| && h1 != h2
    ensures PartCards(TwoRankText(h1, h2, suited, plus))
            == Expand(RankNames[h1], h2, if plus then h1 + 1 else h2, KindOf(suited), false)
  {
    var t := TwoRankText(h1, h2, suited, plus);
    var x, y := RankChars[h1], RankChars[h2];
    var l := if suited then 's' else 'o';
    RankIndexOf(h1);
    RankIndexOf(h2);
    RankCharsDistinct(h1, h2);
    RankChar(h1);
    RankChar(h2);
    TwoRankPartText(x, y, l, plus, t);
    assert PartCards(t) == MainCards([x, y], plus, [l]);
    TwoRankMain(x, y, plus, [l], h1, h2);
  }

  /** The loop of a two-rank part names only `r1` with one of `ranks[lo]`
      to `ranks[hi]`, suited or offsuit as the part says ... */
  lemma TwoRankRunNames(r1: string, hi: int, lo: int, suited: bool)
    requires 0 <= lo && hi < |RankNames|
    ensures Expand(r1, hi, lo, KindOf(suited), false).Ok?
    ensures forall c :: c in Expand(r1, hi, lo, KindOf(suited), false).value ==>
              exists j :: lo <= j <= hi && IsHandOf(c, r1, j, suited)
  {
    var kind := KindOf(suited);
    ExpandMembers(r1, hi, lo, kind, false);
    var v := Expand(r1, hi, lo, kind, false).value;
    forall c | c in v
      ensures exists j :: lo <= j <= hi && IsHandOf(c, r1, j, suited)
    {
      var j :| lo <= j <= hi && c in CardsAt(r1, j, kind, false);
      CardsAtMembers(r1, j, kind, false, c);
      assert IsHandOf(c, r1, j, suited);
    }
  }

  /** ... and names each of them. */
  lemma TwoRankRunCovers(r1: string, hi: int, lo: int, suited: bool)
    requires 0 <= lo && hi < |RankNames|
    ensures Expand(r1, hi, lo, KindOf(suited), false).Ok?
    ensures forall j :: lo <= j <= hi ==>
              PreflopCard(r1 + RankNames[j], suited) in Expand(r1, hi, lo, KindOf(suited), false).value
  {
    var kind := KindOf(suited);
    ExpandMembers(r1, hi, lo, kind, false);
    var v := Expand(r1, hi, lo, kind, false).value;
    forall j | lo <= j <= hi
      ensures PreflopCard(r1 + RankNames[j], suited) in v
    {
      assert PreflopCard(r1 + RankNames[j], suited) in CardsAt(r1, j, kind, false);
    }
  }

  /** A two-rank part "XYs" or "XYo" names the one hand X-Y; with "+" it
      names X with every rank from Y up to the rank just below X, as
      many hands as there are such ranks, all suited or all offsuit as
      the part says. */
  lemma TwoRankPartCount(h1: int, h2: int, suited: bool, plus: bool, t: string)
    requires 0 <= h1 < |RankNames| && 0 <= h2 < |RankNames| && h1 != h2
    requires t == TwoRankText(h1, h2, suited, plus)
    ensures PartCards(t).Ok?
    ensures var lo := if plus then h1 + 1 else h2;
      |PartCards(t).value| == if h2 < lo then 0 else h2 - lo + 1
  {
    var lo := if plus then h1 + 1 else h2;
    TwoRankPartLoop(h1, h2, suited, plus);
    ExpandLength(RankNames[h1], h2, lo, KindOf(suited), false);
    assert Width(KindOf(suited), false) == 1;
    assert (h2 - lo + 1) * 1 == h2 - lo + 1;
  }

  /** Every hand such a part names is X with a rank in that run. */
  lemma TwoRankPartNames(h1: int, h2: int, suited: bool, plus: bool, t: string)
    requires 0 <= h1 < |RankNames| && 0 <= h2 < |RankNames| && h1 != h2
    requires t == TwoRankText(h1, h2, suited, plus)
    ensures PartCards(t).Ok?
    ensures forall c :: c in PartCards(t).value ==>
              exists j :: (if plus then h1 + 1 else h2) <= j <= h2 && IsHandOf(c, RankNames[h1], j, suited)
  {
    TwoRankPartLoop(h1, h2, suited, plus);
    TwoRankRunNames(RankNames[h1], h2, if plus then h1 + 1 else h2, suited);
  }

  /** Every hand of that run is named. */
  lemma TwoRankPartCovers(h1: int, h2: int, suited: bool, plus: bool, t: string)
    requires 0 <= h1 < |RankNames| && 0 <= h2 < |RankNames| && h1 != h2
    requires t == TwoRankText(h1, h2, suited, plus)
    ensures PartCards(t).Ok?
    ensures forall j :: (if plus then h1 + 1 else h2) <= j <= h2 ==>
              PreflopCard(RankNames[h1] + RankNames[j], suited) in PartCards(t).value
  {
    TwoRankPartLoop(h1, h2, suited, plus);
    TwoRankRunCovers(RankNames[h1], h2, if plus then h1 + 1 else h2, suited);
  }


  // ---- the ranges of the tests ----

  /** A range without a comma is one part. */
  lemma OnePart(t: string)
    requires ',' !in t
    ensures ParseRange(t) == PartCards(t)
  {
    SplitNoSeparator(t, ',');
    FlatMapSingle(t, PartCards);
  }

  /** The empty range names no hands. */
  lemma EmptyRange(t: string)
    requires t == ""
    ensures ParseRange(t) == Ok([])
  {
    OnePart(t);
  }

  /** The name of the pair of `ranks[h]` is its character twice; that of
      `ranks[h1]` with `ranks[h2]` is the two characters. */
  lemma HandName(h1: int, h2: int, x: char, y: char)
    requires 0 <= h1 < |RankNames| && 0 <= h2 < |RankNames|
    ensures RankNames[h1] + RankNames[h2] == [x, y] <==> RankChars[h1] == x && RankChars[h2] == y
  {
    RankIndexOf(h1);
    RankIndexOf(h2);
    var n := RankNames[h1] + RankNames[h2];
    assert n == [RankChars[h1], RankChars[h2]];
    if n == [x, y] {
      assert n[0] == x && n[1] == y;
    }
  }

  /** A list holding the pair of `ranks[h]` holds the pair spelled with
      its character. */
  lemma PairSpelled(v: seq<PreflopCard>, h: int, x: char)
    requires 0 <= h < |RankNames| && RankChars[h] == x
    requires PreflopCard(RankNames[h] + RankNames[h], false) in v
    ensures PreflopCard([x, x], false) in v
  {
    HandName(h, h, x, x);
  }

  /** A list of pairs of `ranks[lo]` to `ranks[hi]` does not hold the pair
      of a rank outside that run. */
  lemma PairNotSpelled(v: seq<PreflopCard>, lo: int, hi: int, k: int, x: char)
    requires 0 <= k < |RankNames| && RankChars[k] == x && !(lo <= k <= hi)
    requires forall c :: c in v ==> exists j :: lo <= j <= hi && IsPairOf(c, j)
    ensures PreflopCard([x, x], false) !in v
  {
    if PreflopCard([x, x], false) in v {
      var j :| lo <= j <= hi && IsPairOf(PreflopCard([x, x], false), j);
      HandName(j, j, x, x);
      RankCharsDistinct(j, k);
    }
  }

  /** A list of `r1` with some of `ranks[lo]` to `ranks[hi]` holds the hand
      spelled with their characters. */
  lemma HandSpelled(v: seq<PreflopCard>, h1: int, h2: int, x: char, y: char, suited: bool)
    requires 0 <= h1 < |RankNames| && 0 <= h2 < |RankNames| && RankChars[h1] == x && RankChars[h2] == y
    requires PreflopCard(RankNames[h1] + RankNames[h2], suited) in v
    ensures PreflopCard([x, y], suited) in v
  {
    HandName(h1, h2, x, y);
  }

  /** A pair part holds the pair of each rank of its run, spelled with
      the rank's character ... */
  lemma PairPartHas(h: int, plus: bool, t: string, j: int, x: char)
    requires 0 <= h < |RankNames| && t == PairText(h, plus)
    requires (if plus then 0 else h) <= j <= h && RankChars[j] == x
    ensures PartCards(t).Ok?
    ensures PreflopCard([x, x], false) in PartCards(t).value
  {
    PairPartCovers(h, plus, t);
    PairSpelled(PartCards(t).value, j, x);
  }

  /** ... and no pair of a rank outside it, and nothing suited. */
  lemma PairPartLacks(h: int, plus: bool, t: string, k: int, x: char)
    requires 0 <= h < |RankNames| && t == PairText(h, plus)
    requires 0 <= k < |RankNames| && !((if plus then 0 else h) <= k <= h) && RankChars[k] == x
    ensures PartCards(t).Ok?
    ensures PreflopCard([x, x], false) !in PartCards(t).value
    ensures forall c :: c in PartCards(t).value ==> !c.isSuited
  {
    PairPartNames(h, plus, t);
    PairNotSpelled(PartCards(t).value, if plus then 0 else h, h, k, x);
  }

  /** "77+" names the eight pocket pairs from sevens to aces, none of
      them suited: 77 and AA are in it, 66 is not. */
  lemma SevensUp(t: string)
    requires t == "77+"
    ensures ParseRange(t).Ok?
    ensures |ParseRange(t).value| == 8
    ensures forall c :: c in ParseRange(t).value ==> !c.isSuited
    ensures PreflopCard("77", false) in ParseRange(t).value
    ensures PreflopCard("AA", false) in ParseRange(t).value
    ensures PreflopCard("66", false) !in ParseRange(t).value
  {
    assert RankChars[7] == '7' && RankChars[8] == '6';
    assert t == PairText(7, true);
    OnePart(t);
    PairPlusPart(7, t, '7', '6');
  }

  /** A "+" pair part: as many pairs as ranks from its own up to the aces,
      none suited, among them its own pair and the aces, but not the pair
      just below it. */
  lemma PairPlusPart(h: int, t: string, x: char, y: char)
    requires 0 <= h < |RankNames| - 1 && t == PairText(h, true)
    requires RankChars[h] == x && RankChars[h + 1] == y
    ensures PartCards(t).Ok?
    ensures |PartCards(t).value| == h + 1
    ensures forall c :: c in PartCards(t).value ==> !c.isSuited
    ensures PreflopCard([x, x], false) in PartCards(t).value
    ensures PreflopCard("AA", false) in PartCards(t).value
    ensures PreflopCard([y, y], false) !in PartCards(t).value
  {
    PairPartLacks(h, true, t, h + 1, y);
    PairPartHas(h, true, t, h, x);
    PairPartHas(h, true, t, 0, 'A');
    PairPartLoop(h, true);
    ExpandLength(RankNames[h], h, 0, Kind(t), true);
    var w := Width(Kind(t), true);
    assert w == 1;
    assert (h - 0 + 1) * w == h + 1;
  }

  /** "A2s+" names the twelve suited aces A2s to AKs. */
  lemma SuitedAces(t: string)
    requires t == "A2s+"
    ensures ParseRange(t).Ok?
    ensures |ParseRange(t).value| == 12
    ensures forall c :: c in ParseRange(t).value ==> c.isSuited && |c.rank| == 2 && c.rank[0] == 'A'
    ensures PreflopCard("A2", true) in ParseRange(t).value
    ensures PreflopCard("AK", true) in ParseRange(t).value
  {
    OnePart(t);
    SuitedAcesPart(t);
  }

  /** The two-rank part for suited aces from the deuce up. */
  lemma SuitedAcesPart(t: string)
    requires t == TwoRankText(0, 12, true, true)
    ensures PartCards(t).Ok?
    ensures |PartCards(t).value| == 12
    ensures forall c :: c in PartCards(t).value ==> c.isSuited && |c.rank| == 2 && c.rank[0] == 'A'
    ensures PreflopCard("A2", true) in PartCards(t).value
    ensures PreflopCard("AK", true) in PartCards(t).value
  {
    TwoRankPlusPart(0, 12, true, t, 'A', '2', 'K');
  }

  /** A "+" two-rank part: as many hands as ranks from just below the
      first down to the second, all with the first rank, among them the
      first with the second and the first with the rank just below it. */
  lemma TwoRankPlusPart(h1: int, h2: int, suited: bool, t: string, x: char, y: char, z: char)
    requires 0 <= h1 < h2 < |RankNames|
    requires t == TwoRankText(h1, h2, suited, true)
    requires RankChars[h1] == x && RankChars[h2] == y && RankChars[h1 + 1] == z
    ensures PartCards(t).Ok?
    ensures |PartCards(t).value| == h2 - h1
    ensures forall c :: c in PartCards(t).value ==> c.isSuited == suited && |c.rank| == 2 && c.rank[0] == x
    ensures PreflopCard([x, y], suited) in PartCards(t).value
    ensures PreflopCard([x, z], suited) in PartCards(t).value
  {
    TwoRankPartHas(h1, h2, suited, true, t, h1 + 1, x, z);
    TwoRankPartHas(h1, h2, suited, true, t, h2, x, y);
    TwoRankPartCount(h1, h2, suited, true, t);
    TwoRankPartOnly(h1, h2, suited, true, t, x);
  }

  /** A two-rank part holds the hand of its first rank with each rank of
      its run, spelled with the two characters ... */
  lemma TwoRankPartHas(h1: int, h2: int, suited: bool, plus: bool, t: string, j: int, x: char, y: char)
    requires 0 <= h1 < |RankNames| && 0 <= h2 < |RankNames| && h1 != h2
    requires t == TwoRankText(h1, h2, suited, plus)
    requires (if plus then h1 + 1 else h2) <= j <= h2 && RankChars[h1] == x && RankChars[j] == y
    ensures PartCards(t).Ok?
    ensures PreflopCard([x, y], suited) in PartCards(t).value
  {
    TwoRankPartCovers(h1, h2, suited, plus, t);
    HandSpelled(PartCards(t).value, h1, j, x, y, suited);
  }

  /** ... and every hand it holds is two characters, the first rank's
      first, suited as the part says. */
  lemma TwoRankPartOnly(h1: int, h2: int, suited: bool, plus: bool, t: string, x: char)
    requires 0 <= h1 < |RankNames| && 0 <= h2 < |RankNames| && h1 != h2
    requires t == TwoRankText(h1, h2, suited, plus) && RankChars[h1] == x
    ensures PartCards(t).Ok?
    ensures forall c :: c in PartCards(t).value ==> c.isSuited == suited && |c.rank| == 2 && c.rank[0] == x
  {
    TwoRankPartNames(h1, h2, suited, plus, t);
    forall c | c in PartCards(t).value
      ensures c.isSuited == suited && |c.rank| == 2 && c.rank[0] == x
    {
      var j :| (if plus then h1 + 1 else h2) <= j <= h2 && IsHandOf(c, RankNames[h1], j, suited);
      HandName(h1, j, x, RankChars[j]);
    }
  }

  /** A part whose `main` is not two characters names nothing. */
  lemma LongMain(t: string)
    requires t != [] && Trim(t) == t && |MainOf(t)| != 2
    ensures PartCards(t) == Ok([])
  {
  }

  /** A part missing its comma, as "Q9s+J9s+" in the blind ranges, has a
      `main` longer than two characters and names nothing. */
  lemma MissingComma(t: string)
    requires t == "Q9s+J9s+" || t == "Q2s+J2s+"
    ensures PartCards(t) == Ok([])
  {
    MissingCommaShape(t);
  }

  /** Any eight-character part shaped like two suited "+" parts run
      together names nothing. */
  lemma MissingCommaShape(t: string)
    requires |t| == 8 && !IsWhitespace(t[0])
    requires t[7] == '+' && t[6] == 's' && t[5] != 's' && t[5] != 'o'
    ensures PartCards(t) == Ok([])
  {
    MissingCommaMain(t);
    LongMain(t);
  }

  lemma MissingCommaMain(t: string)
    requires |t| == 8 && t[7] == '+' && t[6] == 's' && t[5] != 's' && t[5] != 'o'
    ensures |MainOf(t)| == 6
  {
    EndsWithLast(t, '+');
    var noPlus := RemoveSuffix(t, "+");
    assert noPlus == t[..7];
    EndsWithLast(noPlus, 's');
    var noS := RemoveSuffix(noPlus, "s");
    assert noS == t[..6];
    EndsWithLast(noS, 'o');
  }

  // ---- two hole cards as a starting hand ----

  /** `mapCardsToPreflopCards`: the starting hand two hole cards form, or
      None when there are not two cards or a rank is not one of `ranks`. */
  function MapCards(hole: seq<Card>): Option<PreflopCard> {
    if |hole| != 2 then None
    else
      var i1 := RankIndex(hole[0].rank);
      var i2 := RankIndex(hole[1].rank);
      if i1 == -1 || i2 == -1 then None
      else
        var suited := hole[0].suit == hole[1].suit;
        if i1 == i2 then Some(PreflopCard(hole[0].rank + hole[0].rank, false))
        else
          var higher := if i1 < i2 then hole[0].rank else hole[1].rank;
          var lower := if i1 < i2 then hole[1].rank else hole[0].rank;
          Some(PreflopCard(higher + lower, suited))
  }

  /** There is a starting hand exactly for two cards whose ranks are both
      among `ranks`; it is then the higher rank name followed by the lower
      one, a pair never suited, any other hand suited exactly when the
      suits agree. */
  lemma MapCardsMeaning(hole: seq<Card>)
    ensures MapCards(hole).Some? <==>
              |hole| == 2 && hole[0].rank in RankNames && hole[1].rank in RankNames
    ensures MapCards(hole).Some? ==>
              var i1, i2 := RankIndex(hole[0].rank), RankIndex(hole[1].rank);
              var hi, lo := if i1 <= i2 then i1 else i2, if i1 <= i2 then i2 else i1;
              MapCards(hole).value
                == PreflopCard(RankNames[hi] + RankNames[lo], hi != lo && hole[0].suit == hole[1].suit)
  {
  }

  /** The order of the two cards does not matter. */
  lemma MapCardsSymmetric(a: Card, b: Card)
    ensures MapCards([a, b]) == MapCards([b, a])
  {
    var i1, i2 := RankIndex(a.rank), RankIndex(b.rank);
    if i1 != -1 && i2 != -1 {
      if i1 == i2 {
        assert a.rank == RankNames[i1] == b.rank;
      }
      assert (a.suit == b.suit) == (b.suit == a.suit);
    }
  }

  /** A card ranked "10", as the evaluators spell a ten, forms no starting
      hand: `ranks` spells it "T". */
  lemma TenFormsNoHand(a: Card, b: Card)
    requires a.rank == "10" || b.rank == "10"
    ensures MapCards([a, b]) == None
  {
    assert "10" !in RankNames;
  }
}

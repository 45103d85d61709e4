/** The pieces of Kotlin's runtime that the bot's decision code relies on:
    exceptions as values, `Int` division and remainder, list lookup, and
    the `String` functions the range parser calls (split, trim, endsWith,
    removeSuffix). Integers are unbounded here; 32-bit overflow is not
    modelled. */
module KotlinRuntime {

  datatype Option<+T> = None | Some(value: T)

  /** The exceptions the modelled code can raise. */
  datatype Failure =
    | IndexOutOfBounds                    // List.get with a bad index
    | DivisionByZero                      // ArithmeticException from `/` or `%`
    | UnknownRank(rank: string)           // error("Unknown rank ...")
    | NoSuchElement                       // maxBy on an empty list
    | RequirementFailed(message: string)  // require(...) failed

  /** A value, or the exception that aborted the computation. */
  datatype Result<+T> = Ok(value: T) | Err(failure: Failure)

  /** An exception thrown while mapping a list ends the whole `map`: the
      values in order, or the first failure. */
  function Collect<T>(rs: seq<Result<T>>): (r: Result<seq<T>>)
    ensures r.Ok? <==> forall i :: 0 <= i < |rs| ==> rs[i].Ok?
    ensures r.Ok? ==> |r.value| == |rs| && forall i :: 0 <= i < |rs| ==> rs[i] == Ok(r.value[i])
    ensures r.Err? ==> exists i :: 0 <= i < |rs| && rs[i] == Err(r.failure)
                                   && forall j :: 0 <= j < i ==> rs[j].Ok?
    decreases |rs|
  {
    if rs == [] then Ok([])
    else
      match rs[0]
      case Err(f) => Err(f)
      case Ok(v) =>
        match Collect(rs[1..])
        case Err(f) =>
          ghost var i :| 0 <= i < |rs[1..]| && rs[1..][i] == Err(f)
                         && forall j :: 0 <= j < i ==> rs[1..][j].Ok?;
          assert rs[i + 1] == Err(f);
          Err(f)
        case Ok(vs) =>
          assert forall i :: 1 <= i < |rs| ==> rs[i] == rs[1..][i - 1];
          Ok([v] + vs)
  }

  /** Values already collected followed by the outcome of the rest: the
      rest's exception, if any, ends everything. */
  function Extend<T>(done: seq<T>, rest: Result<seq<T>>): (r: Result<seq<T>>)
    ensures r.Ok? <==> rest.Ok?
    ensures r.Ok? ==> r.value == done + rest.value
    ensures r.Err? ==> r.failure == rest.failure
  {
    match rest
    case Ok(v) => Ok(done + v)
    case Err(f) => Err(f)
  }

  /** Appending in two steps or in one. */
  lemma ExtendTwice<T>(a: seq<T>, b: seq<T>, rest: Result<seq<T>>)
    ensures Extend(a, Extend(b, rest)) == Extend(a + b, rest)
  {
    if rest.Ok? {
      assert a + (b + rest.value) == (a + b) + rest.value;
    }
  }

  /** A loop that runs `f` on each element in order and adds all it
      returns to one list; the first exception ends the loop. */
  function FlatMap<S, T>(xs: seq<S>, f: S -> Result<seq<T>>): Result<seq<T>>
    decreases |xs|
  {
    if xs == [] then Ok([])
    else
      match f(xs[0])
      case Err(e) => Err(e)
      case Ok(ys) => Extend(ys, FlatMap(xs[1..], f))
  }

  /** One turn of such a loop: the element at `k`, then the rest. */
  lemma FlatMapStep<S, T>(xs: seq<S>, f: S -> Result<seq<T>>, k: nat, done: seq<T>)
    requires k < |xs|
    ensures f(xs[k]).Err? ==> Extend(done, FlatMap(xs[k..], f)) == Err(f(xs[k]).failure)
    ensures f(xs[k]).Ok? ==>
              Extend(done, FlatMap(xs[k..], f)) == Extend(done + f(xs[k]).value, FlatMap(xs[k + 1..], f))
  {
    assert xs[k..][1..] == xs[k + 1..];
    if f(xs[k]).Ok? {
      ExtendTwice(done, f(xs[k]).value, FlatMap(xs[k + 1..], f));
    }
  }

  /** A loop over one element is one call of `f`. */
  lemma FlatMapSingle<S, T>(x: S, f: S -> Result<seq<T>>)
    ensures FlatMap([x], f) == f(x)
  {
    assert [x][1..] == [];
    var r := f(x);
    assert r.Ok? ==> r.value + [] == r.value;
  }

  /** Such a loop starts with nothing collected ... */
  lemma FlatMapStart<S, T>(xs: seq<S>, f: S -> Result<seq<T>>)
    ensures Extend([], FlatMap(xs[0..], f)) == FlatMap(xs, f)
  {
    assert xs[0..] == xs;
    var whole := FlatMap(xs, f);
    assert whole.Ok? ==> [] + whole.value == whole.value;
  }

  /** ... and ends with what it collected. */
  lemma FlatMapEnd<S, T>(xs: seq<S>, f: S -> Result<seq<T>>, done: seq<T>)
    ensures Extend(done, FlatMap(xs[|xs|..], f)) == Ok(done)
  {
    assert xs[|xs|..] == [] && done + [] == done;
  }

  /** The loop throws exactly when `f` throws on some element, and
      otherwise collects exactly what `f` returns on the elements. */
  lemma {:induction false} FlatMapMeaning<S, T>(xs: seq<S>, f: S -> Result<seq<T>>)
    ensures FlatMap(xs, f).Err? <==> exists i :: 0 <= i < |xs| && f(xs[i]).Err?
    ensures FlatMap(xs, f).Ok? ==> forall y :: y in FlatMap(xs, f).value ==>
              exists i :: 0 <= i < |xs| && f(xs[i]).Ok? && y in f(xs[i]).value
    ensures FlatMap(xs, f).Ok? ==> forall i, y :: 0 <= i < |xs| && f(xs[i]).Ok? && y in f(xs[i]).value ==>
              y in FlatMap(xs, f).value
    decreases |xs|
  {
    if xs != [] {
      FlatMapMeaning(xs[1..], f);
      if FlatMap(xs, f).Err? && f(xs[0]).Ok? {
        var i :| 0 <= i < |xs[1..]| && f(xs[1..][i]).Err?;
        assert xs[i + 1] == xs[1..][i];
      } else if FlatMap(xs, f).Ok? {
        var here := f(xs[0]).value;
        var rest := FlatMap(xs[1..], f).value;
        assert FlatMap(xs, f).value == here + rest;
        forall y | y in here + rest
          ensures exists i :: 0 <= i < |xs| && f(xs[i]).Ok? && y in f(xs[i]).value
        {
          if y !in here {
            assert y in rest;
            var i :| 0 <= i < |xs[1..]| && f(xs[1..][i]).Ok? && y in f(xs[1..][i]).value;
            assert xs[i + 1] == xs[1..][i];
          }
        }
      }
    }
  }

  /** Running the loop over two lists one after the other. */
  lemma {:induction false} FlatMapAppend<S, T>(a: seq<S>, b: seq<S>, f: S -> Result<seq<T>>)
    ensures FlatMap(a + b, f)
            == if FlatMap(a, f).Err? then FlatMap(a, f) else Extend(FlatMap(a, f).value, FlatMap(b, f))
    decreases |a|
  {
    if a == [] {
      assert a + b == b;
      assert FlatMap(b, f).Ok? ==> [] + FlatMap(b, f).value == FlatMap(b, f).value;
    } else {
      assert (a + b)[0] == a[0] && (a + b)[1..] == a[1..] + b;
      FlatMapAppend(a[1..], b, f);
      if f(a[0]).Ok? && FlatMap(a[1..], f).Ok? {
        ExtendTwice(f(a[0]).value, FlatMap(a[1..], f).value, FlatMap(b, f));
      }
    }
  }

  function Abs(x: int): nat { if x < 0 then -x else x }

  /** Kotlin's `a / b` on `Int`: the quotient rounded toward zero. */
  function Div(a: int, b: int): int
    requires b != 0
  {
    if (a >= 0) == (b > 0) then Abs(a) / Abs(b) else -(Abs(a) / Abs(b))
  }

  /** Kotlin's `a % b` on `Int`: the remainder takes the sign of `a`. */
  function Rem(a: int, b: int): int
    requires b != 0
  {
    a - Div(a, b) * b
  }

  /** On a non-negative dividend and a positive divisor Kotlin's operators
      agree with Dafny's Euclidean ones. */
  lemma DivRemNonNegative(a: int, b: int)
    requires a >= 0 && b > 0
    ensures Div(a, b) == a / b && Rem(a, b) == a % b
  {
  }

  /** `List.indexOf`: the first position of `x`, or -1. */
  function IndexOf<T(==)>(xs: seq<T>, x: T): (i: int)
    ensures -1 <= i < |xs|
    ensures i == -1 <==> x !in xs
    ensures i >= 0 ==> xs[i] == x && x !in xs[..i]
    decreases |xs|
  {
    if xs == [] then -1
    else if xs[0] == x then 0
    else
      var j := IndexOf(xs[1..], x);
      assert xs[1..][..j + 1] == xs[1..j + 2] by {}
      if j == -1 then -1 else j + 1
  }

  /** `String.endsWith(suffix)`. */
  predicate EndsWith(s: string, suffix: string) {
    |suffix| <= |s| && s[|s| - |suffix|..] == suffix
  }

  /** `String.removeSuffix(suffix)`. */
  function RemoveSuffix(s: string, suffix: string): (r: string)
    ensures EndsWith(s, suffix) ==> r + suffix == s
    ensures !EndsWith(s, suffix) ==> r == s
  {
    if EndsWith(s, suffix) then s[..|s| - |suffix|] else s
  }

  /** A one-character suffix is a last character. */
  lemma EndsWithLast(s: string, c: char)
    ensures EndsWith(s, [c]) <==> |s| >= 1 && s[|s| - 1] == c
    ensures EndsWith(s, [c]) ==> RemoveSuffix(s, [c]) == s[..|s| - 1]
  {
    if |s| >= 1 && s[|s| - 1] == c {
      assert s[|s| - 1..] == [c];
    }
  }

  /** A two-character suffix is the last two characters. */
  lemma EndsWithLastTwo(s: string, c: char, d: char)
    ensures EndsWith(s, [c, d]) <==> |s| >= 2 && s[|s| - 2] == c && s[|s| - 1] == d
  {
    if |s| >= 2 && s[|s| - 2] == c && s[|s| - 1] == d {
      assert s[|s| - 2..] == [c, d];
    }
  }

  /** `Char.isWhitespace()`: Java's whitespace characters together with the
      Unicode space separators. */
  predicate IsWhitespace(c: char) {
    || '\t' <= c <= '\r'
    || '\U{1C}' <= c <= '\U{1F}'
    || c == ' ' || c == '\U{A0}' || c == '\U{1680}'
    || '\U{2000}' <= c <= '\U{200A}'
    || c == '\U{2028}' || c == '\U{2029}' || c == '\U{202F}' || c == '\U{205F}'
    || c == '\U{3000}'
  }

  /** The first index from `i` on that holds no whitespace, or `|s|`:
      where `trim`'s scan from the front stops. */
  function FirstKept(s: string, i: int): (j: int)
    requires 0 <= i <= |s|
    ensures i <= j <= |s|
    ensures forall k :: i <= k < j ==> IsWhitespace(s[k])
    ensures j == |s| || !IsWhitespace(s[j])
    decreases |s| - i
  {
    if i < |s| && IsWhitespace(s[i]) then FirstKept(s, i + 1) else i
  }

  /** The end, no lower than `lo`, that is left once whitespace is cut
      from before `j`: where `trim`'s scan from the back stops. */
  function LastKept(s: string, lo: int, j: int): (e: int)
    requires 0 <= lo <= j <= |s|
    ensures lo <= e <= j
    ensures forall k :: e <= k < j ==> IsWhitespace(s[k])
    ensures e == lo || !IsWhitespace(s[e - 1])
    decreases j
  {
    if lo < j && IsWhitespace(s[j - 1]) then LastKept(s, lo, j - 1) else j
  }

  /** `s[i..j]` is what is left of `s` once whitespace alone is cut
      before `i` and after `j`. */
  predicate CutsOnlyWhitespace(s: string, i: int, j: int) {
    && 0 <= i <= j <= |s|
    && (forall k :: 0 <= k < i ==> IsWhitespace(s[k]))
    && (forall k :: j <= k < |s| ==> IsWhitespace(s[k]))
  }

  /** `String.trim()`: the result is a slice `s[i..j]` of the string with
      only whitespace cut before `i` and after `j`, and it neither starts
      nor ends with whitespace, which fixes the slice; a string that
      already does not start or end with whitespace is left alone. */
  function Trim(s: string): (r: string)
    ensures exists i, j :: CutsOnlyWhitespace(s, i, j) && r == s[i..j]
    ensures r == [] || (!IsWhitespace(r[0]) && !IsWhitespace(r[|r| - 1]))
    ensures s == [] || (!IsWhitespace(s[0]) && !IsWhitespace(s[|s| - 1])) ==> r == s
  {
    var i := FirstKept(s, 0);
    var j := LastKept(s, i, |s|);
    assert CutsOnlyWhitespace(s, i, j);
    s[i..j]
  }

  /** `String.split(sep)` for a one-character separator: every piece between
      separators, empty pieces included, so the result is never empty. */
  function Split(s: string, sep: char): (parts: seq<string>)
    ensures |parts| >= 1
    ensures forall p :: p in parts ==> sep !in p
    decreases |s|
  {
    if s == [] then [""]
    else
      var rest := Split(s[1..], sep);
      if s[0] == sep then [""] + rest
      else [[s[0]] + rest[0]] + rest[1..]
  }

  /** `joinToString(sep)`: the inverse of Split. */
  function Join(parts: seq<string>, sep: char): string
    decreases |parts|
  {
    if parts == [] then ""
    else if |parts| == 1 then parts[0]
    else parts[0] + [sep] + Join(parts[1..], sep)
  }

  /** Joining the pieces of a split gives back the original string. */
  lemma {:induction false} JoinSplit(s: string, sep: char)
    ensures Join(Split(s, sep), sep) == s
    decreases |s|
  {
    if s != [] {
      var rest := Split(s[1..], sep);
      JoinSplit(s[1..], sep);
      if s[0] == sep {
        assert Split(s, sep) == [""] + rest;
        assert s == [sep] + s[1..];
      } else {
        if |rest| == 1 {
          assert Join(rest, sep) == rest[0];
        } else {
          assert Join(rest, sep) == rest[0] + [sep] + Join(rest[1..], sep);
          assert rest[1..] == ([[s[0]] + rest[0]] + rest[1..])[1..];
        }
        assert s == [s[0]] + s[1..];
      }
    }
  }

  /** Splitting a join of separator-free pieces gives back the pieces. */
  lemma {:induction false} SplitJoin(parts: seq<string>, sep: char)
    requires |parts| >= 1
    requires forall p :: p in parts ==> sep !in p
    ensures Split(Join(parts, sep), sep) == parts
    decreases |parts|
  {
    if |parts| == 1 {
      SplitNoSeparator(parts[0], sep);
    } else {
      SplitJoin(parts[1..], sep);
      SplitPrefix(parts[0], Join(parts[1..], sep), sep);
    }
  }

  lemma {:induction false} SplitNoSeparator(s: string, sep: char)
    requires sep !in s
    ensures Split(s, sep) == [s]
    decreases |s|
  {
    if s != [] {
      SplitNoSeparator(s[1..], sep);
      assert s == [s[0]] + s[1..];
    }
  }

  /** Splitting `p + sep + rest` for a separator-free `p`. */
  lemma {:induction false} SplitPrefix(p: string, rest: string, sep: char)
    requires sep !in p
    ensures Split(p + [sep] + rest, sep) == [p] + Split(rest, sep)
    decreases |p|
  {
    var s := p + [sep] + rest;
    if p == [] {
      assert s == [sep] + rest;
      assert s[1..] == rest;
    } else {
      assert s[1..] == p[1..] + [sep] + rest;
      SplitPrefix(p[1..], rest, sep);
      assert [p[0]] + p[1..] == p;
    }
  }
  /** Splitting two strings joined by a separator splits each of them. */
  lemma {:induction false} SplitAppend(s: string, t: string, sep: char)
    ensures Split(s + [sep] + t, sep) == Split(s, sep) + Split(t, sep)
    decreases |s|
  {
    var whole := s + [sep] + t;
    if s == [] {
      assert whole == [sep] + t && whole[1..] == t;
    } else {
      assert whole[0] == s[0] && whole[1..] == s[1..] + [sep] + t;
      SplitAppend(s[1..], t, sep);
    }
  }

  /** `List.map(f)`. */
  function Map<T, U>(s: seq<T>, f: T -> U): seq<U>
  {
    seq(|s|, i requires 0 <= i < |s| => f(s[i]))
  }

  /** Mapping two rearrangements of a list gives rearrangements of each
      other: `map` neither adds, drops nor merges elements. */
  lemma {:induction false} MapPermutation<T, U>(a: seq<T>, b: seq<T>, f: T -> U)
    requires multiset(a) == multiset(b)
    ensures multiset(Map(a, f)) == multiset(Map(b, f))
    decreases |a|
  {
    if a == [] {
      assert |b| == |multiset(b)| == 0;
    } else {
      assert a[0] in multiset(b);
      var j := IndexOf(b, a[0]);
      var rest := b[..j] + b[j + 1..];
      RemoveFirst(a, b, j);
      MapPermutation(a[1..], rest, f);
      MapRemoveOne(b, j, f);
      MapHead(a, f);
    }
  }

  /** Mapping a list is mapping its tail, plus the image of its head. */
  lemma MapHead<T, U>(a: seq<T>, f: T -> U)
    requires a != []
    ensures multiset(Map(a, f)) == multiset(Map(a[1..], f)) + multiset{f(a[0])}
  {
    MapRemoveOne(a, 0, f);
    assert a[..0] + a[1..] == a[1..];
  }

  /** Removing one equal element from two rearrangements of a list. */
  lemma RemoveFirst<T>(a: seq<T>, b: seq<T>, j: nat)
    requires multiset(a) == multiset(b)
    requires a != [] && j < |b| && b[j] == a[0]
    ensures multiset(a[1..]) == multiset(b[..j] + b[j + 1..])
  {
    RemoveOne(b, j);
    assert a == [a[0]] + a[1..];
  }

  /** Dropping the element at `j` removes exactly one copy of it. */
  lemma RemoveOne<T>(s: seq<T>, j: nat)
    requires j < |s|
    ensures multiset(s[..j] + s[j + 1..]) == multiset(s) - multiset{s[j]}
    ensures multiset(s) == multiset(s[..j] + s[j + 1..]) + multiset{s[j]}
  {
    assert s == s[..j] + [s[j]] + s[j + 1..];
  }

  /** Mapping a list with one element dropped. */
  lemma MapRemoveOne<T, U>(s: seq<T>, j: nat, f: T -> U)
    requires j < |s|
    ensures multiset(Map(s, f)) == multiset(Map(s[..j] + s[j + 1..], f)) + multiset{f(s[j])}
  {
    var rest := s[..j] + s[j + 1..];
    var m := Map(s, f);
    forall i | 0 <= i < |rest| ensures Map(rest, f)[i] == (m[..j] + m[j + 1..])[i] {
      if i < j {
        assert rest[i] == s[i];
      } else {
        assert rest[i] == s[i + 1];
      }
    }
    assert Map(rest, f) == m[..j] + m[j + 1..];
    RemoveOne(m, j);
  }
}

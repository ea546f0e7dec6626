/** Splitting text that no boundary helps with: the longest fitting prefix by bisection, cut at a late
    space when there is one, again and again. The token counter is arbitrary. */
module HardSplit {
  import opened ChunkText
  import opened Prelude

  /** No length, or one whose prefix is within the budget. */
  predicate Fits(s: string, target: nat, count: Counter, n: nat) {
    n == 0 || (n <= |s| && count(s[..n]) <= target)
  }

  /** The bisection of the source, from an interval of candidate lengths and the best one so far. */
  function Bisect(s: string, target: nat, count: Counter, low: nat, high: int, best: nat): (r: nat)
    requires 1 <= low && high <= |s|
    requires Fits(s, target, count, best)
    ensures Fits(s, target, count, r)
    decreases high - low
  {
    if low > high then best
    else
      var midpoint := (low + high) / 2;
      if count(s[..midpoint]) <= target then Bisect(s, target, count, midpoint + 1, high, midpoint)
      else Bisect(s, target, count, low, midpoint - 1, best)
  }

  /** s.rfind(" ", 0, end) */
  function LastSpace(s: string, end: nat): (r: int)
    requires end <= |s|
    ensures -1 <= r < end
    ensures 0 <= r ==> s[r] == ' ' && forall k :: r < k < end ==> s[k] != ' '
    ensures r == -1 ==> forall k :: 0 <= k < end ==> s[k] != ' '
  {
    if end == 0 then -1
    else if s[end - 1] == ' ' then end - 1
    else LastSpace(s, end - 1)
  }

  /** The length of the next piece of text that does not fit as a whole; 0 when not one character fits. */
  function PieceLength(s: string, target: nat, count: Counter): (r: nat)
    ensures r == 0 || (r <= |s| && count(s[..r]) <= target)
  {
    var best := Bisect(s, target, count, 1, |s|, 0);
    if best == 0 then 0
    else
      var boundary := LastSpace(s, best);
      if boundary > best / 2 && count(s[..boundary + 1]) <= target then boundary + 1 else best
  }

  /** All pieces of the text. */
  function Pieces(s: string, target: nat, count: Counter): Result<seq<string>, ChunkError>
    decreases |s|
  {
    if s == "" then Ok([])
    else if count(s) <= target then Ok([s])
    else
      var n := PieceLength(s, target, count);
      if n == 0 then Err(CharacterExceedsBudget)
      else
        var rest :- Pieces(s[n..], target, count);
        Ok([s[..n]] + rest)
  }

  /** The one way in which the split fails. */
  lemma {:induction false} PiecesErrors(s: string, target: nat, count: Counter)
    ensures Pieces(s, target, count).Err? ==> Pieces(s, target, count) == Err(CharacterExceedsBudget)
    decreases |s|
  {
    if s != "" && count(s) > target && PieceLength(s, target, count) > 0 {
      PiecesErrors(s[PieceLength(s, target, count)..], target, count);
    }
  }

  lemma BisectStep(s: string, target: nat, count: Counter, low: nat, high: int, best: nat)
    requires 1 <= low <= high <= |s| && Fits(s, target, count, best)
    ensures
      var midpoint := (low + high) / 2;
      && low <= midpoint <= high
      && Bisect(s, target, count, low, high, best)
         == if count(s[..midpoint]) <= target then Bisect(s, target, count, midpoint + 1, high, midpoint)
            else Bisect(s, target, count, low, midpoint - 1, best)
  {
  }

  /** The bisection loop. */
  method FindLongest(s: string, target: nat, count: Counter) returns (best: nat)
    ensures best == Bisect(s, target, count, 1, |s|, 0)
  {
    var low, high := 1, |s|;
    best := 0;
    while low <= high
      invariant 1 <= low && high <= |s|
      invariant Fits(s, target, count, best)
      invariant Bisect(s, target, count, 1, |s|, 0) == Bisect(s, target, count, low, high, best)
      decreases high - low
    {
      hide Bisect;
      BisectStep(s, target, count, low, high, best);
      var midpoint := (low + high) / 2;
      if count(s[..midpoint]) <= target {
        best := midpoint;
        low := midpoint + 1;
      } else {
        high := midpoint - 1;
      }
    }
  }

  /** One turn of the outer loop, as an equation. */
  lemma PiecesStep(out: seq<string>, s: string, target: nat, count: Counter)
    requires s != "" && count(s) > target && PieceLength(s, target, count) > 0
    ensures
      var n := PieceLength(s, target, count);
      Onto(out, Pieces(s, target, count)) == Onto(out + [s[..n]], Pieces(s[n..], target, count))
  {
    hide Bisect, LastSpace, Onto;
    var n := PieceLength(s, target, count);
    var rest := Pieces(s[n..], target, count);
    assert Pieces(s, target, count) == Onto([s[..n]], rest) by { PiecesOnto(s, target, count); }
    OntoTwice(out, [s[..n]], rest);
  }

  lemma PiecesOnto(s: string, target: nat, count: Counter)
    requires s != "" && count(s) > target && PieceLength(s, target, count) > 0
    ensures
      var n := PieceLength(s, target, count);
      Pieces(s, target, count) == Onto([s[..n]], Pieces(s[n..], target, count))
  {
    hide PieceLength;
  }

  /** The next piece, once the text is known not to fit as a whole. */
  method NextPiece(remaining: string, target: nat, count: Counter) returns (best: nat)
    ensures best == PieceLength(remaining, target, count)
  {
    best := FindLongest(remaining, target, count);
    if best != 0 {
      var boundary := LastSpace(remaining, best);
      if boundary > best / 2 && count(remaining[..boundary + 1]) <= target {
        best := boundary + 1;
      }
    }
  }

  /** The loop of the source: every path through it yields exactly these pieces. */
  method Split(sentence: string, target: nat, count: Counter) returns (result: Result<seq<string>, ChunkError>)
    ensures result == Pieces(sentence, target, count)
  {
    if sentence == "" {
      return Ok([]);
    }
    var out: seq<string> := [];
    var remaining := sentence;
    OntoEnds(out, Pieces(sentence, target, count));
    while remaining != ""
      invariant Pieces(sentence, target, count) == Onto(out, Pieces(remaining, target, count))
      decreases |remaining|
    {
      if count(remaining) <= target {
        return Ok(out + [remaining]);
      }
      var best := NextPiece(remaining, target, count);
      if best == 0 {
        return Err(CharacterExceedsBudget);
      }
      var part := remaining[..best];
      assert count(part) <= target;   // so the last check of the source never raises
      PiecesStep(out, remaining, target, count);
      out := out + [part];
      remaining := remaining[best..];
    }
    OntoEnds(out, Ok([]));
    return Ok(out);
  }

  // ---------------------------------------------------------------- what the pieces are

  function Joined(parts: seq<string>): string {
    if parts == [] then "" else parts[0] + Joined(parts[1..])
  }

  lemma JoinedFirst(part: string, rest: seq<string>)
    ensures Joined([part] + rest) == part + Joined(rest)
  {
    assert ([part] + rest)[1..] == rest;
  }

  lemma ConcatAssociates(a: string, b: string, c: string)
    ensures a + (b + c) == (a + b) + c
  {
  }

  lemma {:induction false} JoinedAppend(a: seq<string>, b: seq<string>)
    ensures Joined(a + b) == Joined(a) + Joined(b)
  {
    if a == [] {
      assert a + b == b;
    } else {
      var rest := a[1..];
      JoinedAppend(rest, b);
      assert a + b == [a[0]] + (rest + b);
      JoinedFirst(a[0], rest + b);
      ConcatAssociates(a[0], Joined(rest), Joined(b));
    }
  }

  predicate Fit(parts: seq<string>, target: nat, count: Counter) {
    forall i :: 0 <= i < |parts| ==> parts[i] != "" && count(parts[i]) <= target
  }

  lemma FitFirst(part: string, rest: seq<string>, target: nat, count: Counter)
    requires part != "" && count(part) <= target && Fit(rest, target, count)
    ensures Fit([part] + rest, target, count)
  {
  }

  /** For any counter: the pieces are nonempty, fit the budget, and concatenate to the input. */
  lemma {:induction false} PiecesPartition(s: string, target: nat, count: Counter)
    requires Pieces(s, target, count).Ok?
    ensures Joined(Pieces(s, target, count).value) == s
    ensures Fit(Pieces(s, target, count).value, target, count)
    decreases |s|
  {
    if s == "" {
    } else if count(s) <= target {
      JoinedFirst(s, []);
      assert [s] + [] == [s];
    } else {
      var n := PieceLength(s, target, count);
      var tail := Pieces(s[n..], target, count);
      PiecesPartition(s[n..], target, count);
      PiecesMore(s, n, tail.value, target, count);
    }
  }

  lemma PiecesMore(s: string, n: nat, tail: seq<string>, target: nat, count: Counter)
    requires 0 < n <= |s| && count(s[..n]) <= target
    requires Joined(tail) == s[n..] && Fit(tail, target, count)
    ensures Joined([s[..n]] + tail) == s && Fit([s[..n]] + tail, target, count)
  {
    JoinedFirst(s[..n], tail);
    FitFirst(s[..n], tail, target, count);
    assert s[..n] + s[n..] == s;
  }

  // ---------------------------------------------------------------- monotone counters

  /** A text never counts more than its parts together. */
  ghost predicate Subadditive(count: Counter) {
    forall a: string, b: string :: count(a + b) <= count(a) + count(b)
  }

  /** Longer texts do not count less than their prefixes. */
  ghost predicate PrefixMonotone(count: Counter) {
    forall s: string, n: nat :: n <= |s| ==> count(s[..n]) <= count(s)
  }

  lemma PrefixesOrdered(count: Counter, s: string, m: nat, n: nat)
    requires PrefixMonotone(count) && m <= n <= |s|
    ensures count(s[..m]) <= count(s[..n])
  {
    assert s[..n][..m] == s[..m];
  }

  /** The bisection then finds the longest prefix that fits. */
  lemma {:induction false} BisectFindsLongest(s: string, target: nat, count: Counter, low: nat, high: int, best: nat)
    requires PrefixMonotone(count)
    requires 1 <= low <= high + 1 && high <= |s| && best == low - 1
    requires best == 0 || count(s[..best]) <= target
    requires forall p :: high < p <= |s| ==> count(s[..p]) > target
    ensures forall p :: 1 <= p <= |s| ==> (count(s[..p]) <= target <==> p <= Bisect(s, target, count, low, high, best))
    decreases high - low
  {
    if low > high {
      forall p | 1 <= p <= |s| ensures count(s[..p]) <= target <==> p <= best {
        if p <= best {
          PrefixesOrdered(count, s, p, best);
        }
      }
    } else {
      var midpoint := (low + high) / 2;
      if count(s[..midpoint]) <= target {
        BisectFindsLongest(s, target, count, midpoint + 1, high, midpoint);
      } else {
        forall p | midpoint - 1 < p <= |s| ensures count(s[..p]) > target {
          PrefixesOrdered(count, s, midpoint, p);
        }
        BisectFindsLongest(s, target, count, low, midpoint - 1, best);
      }
    }
  }

  /** The longest prefix within the budget. */
  function Longest(s: string, target: nat, count: Counter): nat {
    Bisect(s, target, count, 1, |s|, 0)
  }

  /** A piece is never shorter than half of what would have fitted. */
  lemma PiecesAreLong(s: string, target: nat, count: Counter)
    requires PrefixMonotone(count) && s != "" && count(s) > target
    ensures forall p :: 1 <= p <= |s| ==> (count(s[..p]) <= target <==> p <= Longest(s, target, count))
    ensures PieceLength(s, target, count) == 0 <==> Longest(s, target, count) == 0
    ensures Longest(s, target, count) > 0 ==>
              Longest(s, target, count) / 2 < PieceLength(s, target, count) <= Longest(s, target, count)
  {
    BisectFindsLongest(s, target, count, 1, |s|, 0);
  }

  /** Where a piece ends: just behind the last space of the second half of the longest fitting prefix, when there is one and
      the text up to it fits, else at the end of that prefix. */
  lemma PieceEnds(s: string, target: nat, count: Counter)
    requires s != "" && count(s) > target && Longest(s, target, count) > 0
    ensures
      var n, longest := PieceLength(s, target, count), Longest(s, target, count);
      && 0 < n <= longest <= |s|
      && (n < longest ==> s[n - 1] == ' ' && longest / 2 < n - 1 && forall k :: n <= k < longest ==> s[k] != ' ')
      && (n == longest ==> s[n - 1] == ' ' || forall k :: longest / 2 < k < longest && s[k] == ' ' ==>
            exists later :: k <= later < longest && s[later] == ' ' && count(s[..later + 1]) > target)
  {
    var longest := Longest(s, target, count);
    var boundary := LastSpace(s, longest);
    if PieceLength(s, target, count) == longest && s[longest - 1] != ' ' {
      forall k | longest / 2 < k < longest && s[k] == ' '
        ensures exists later :: k <= later < longest && s[later] == ' ' && count(s[..later + 1]) > target
      {
        assert k <= boundary < longest && s[boundary] == ' ' && count(s[..boundary + 1]) > target;
      }
    }
  }

  /** For a prefix-monotone counter: a piece ends with a space whenever the second half of the longest fitting prefix has
      one, and is that prefix exactly when none is there, or when it ends with one. */
  lemma PieceEndsAtSpace(s: string, target: nat, count: Counter)
    requires PrefixMonotone(count) && s != "" && count(s) > target && Longest(s, target, count) > 0
    ensures
      var n, longest := PieceLength(s, target, count), Longest(s, target, count);
      && 0 < n <= longest <= |s|
      && ((exists k :: longest / 2 < k < longest && s[k] == ' ') ==> s[n - 1] == ' ')
      && (n == longest <==> s[longest - 1] == ' ' || forall k :: longest / 2 < k < longest ==> s[k] != ' ')
  {
    PieceEnds(s, target, count);
    PiecesAreLong(s, target, count);
  }

  /** Characters that fit on their own make the split succeed. */
  lemma {:induction false} SmallCharactersSplit(s: string, target: nat, count: Counter)
    requires PrefixMonotone(count)
    requires forall c: char :: count([c]) <= target
    ensures Pieces(s, target, count).Ok?
    decreases |s|
  {
    if s != "" && count(s) > target {
      PiecesAreLong(s, target, count);
      assert s[..1] == [s[0]];
      assert count(s[..1]) <= target;
      SmallCharactersSplit(s[PieceLength(s, target, count)..], target, count);
    }
  }

  /** What the pieces promise about length: each piece but the last is longer than half the longest prefix of the
      text before it that fits the budget, and the last piece is all that was left. */
  ghost predicate LongPieces(s: string, parts: seq<string>, target: nat, count: Counter)
    decreases |parts|
  {
    parts != [] ==>
      && |parts[0]| <= |s|
      && (if count(s) <= target then parts == [s]
          else
            && |parts[0]| > Longest(s, target, count) / 2
            && (forall p :: Longest(s, target, count) < p <= |s| ==> count(s[..p]) > target)
            && LongPieces(s[|parts[0]|..], parts[1..], target, count))
  }

  lemma {:induction false} EveryPieceIsLong(s: string, target: nat, count: Counter)
    requires PrefixMonotone(count) && Pieces(s, target, count).Ok?
    ensures LongPieces(s, Pieces(s, target, count).value, target, count)
    decreases |s|
  {
    if s != "" && count(s) > target {
      PiecesAreLong(s, target, count);
      var n := PieceLength(s, target, count);
      EveryPieceIsLong(s[n..], target, count);
      var tail := Pieces(s[n..], target, count).value;
      assert ([s[..n]] + tail)[1..] == tail;
    }
  }

  lemma LargeCharacterStops(c: char, target: nat, count: Counter)
    requires PrefixMonotone(count) && count([c]) > target
    ensures !Pieces([c], target, count).Ok?
  {
    PiecesAreLong([c], target, count);
    assert [c][..1] == [c];
  }

  /** The exact condition: the split succeeds on every text if and only if every single character fits. */
  lemma SplitsEverythingExactlyWhen(target: nat, count: Counter)
    requires PrefixMonotone(count)
    ensures (forall s: string :: Pieces(s, target, count).Ok?) <==> (forall c: char :: count([c]) <= target)
  {
    if c: char :| count([c]) > target {
      LargeCharacterStops(c, target, count);
    } else {
      forall s: string ensures Pieces(s, target, count).Ok? {
        SmallCharactersSplit(s, target, count);
      }
    }
  }
}

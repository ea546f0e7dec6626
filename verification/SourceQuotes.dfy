/** Finding a quotation in its source when only whitespace may differ. */
module SourceQuotes {
  import opened ChunkText
  import opened Prelude
  import opened PythonText

  /** Every run of whitespace as one space. */
  function Collapse(s: string): string {
    if s == "" then ""
    else if !IsSpace(s[0]) then [s[0]] + Collapse(s[1..])
    else if |s| > 1 && IsSpace(s[1]) then Collapse(s[1..])
    else " " + Collapse(s[1..])
  }

  /** The end of the leading run of whitespace, or of the leading character. */
  function TokenEnd(s: string): (n: nat)
    requires s != ""
    ensures 1 <= n <= |s|
    ensures !IsSpace(s[0]) ==> n == 1
    ensures IsSpace(s[0]) ==> Blank(s[..n]) && (n < |s| ==> !IsSpace(s[n]))
  {
    if IsSpace(s[0]) && |s| > 1 && IsSpace(s[1]) then
      var n := 1 + TokenEnd(s[1..]);
      assert forall i :: 0 < i < n ==> s[..n][i] == s[1..][..n - 1][i - 1];
      n
    else 1
  }

  lemma {:induction false} FirstToken(s: string)
    requires s != ""
    ensures Collapse(s) == [if IsSpace(s[0]) then ' ' else s[0]] + Collapse(s[TokenEnd(s)..])
  {
    if IsSpace(s[0]) && |s| > 1 && IsSpace(s[1]) {
      FirstToken(s[1..]);
      assert s[1..][TokenEnd(s[1..])..] == s[TokenEnd(s)..];
    }
  }

  /** The position in s of the collapsed character k; the length of s for the one after the last. */
  function At(s: string, k: nat): (p: nat)
    requires k <= |Collapse(s)|
    ensures p <= |s|
  {
    if k == 0 then 0
    else
      FirstToken(s);
      TokenEnd(s) + At(s[TokenEnd(s)..], k - 1)
  }

  predicate OccursAt(s: string, pattern: string, k: nat) {
    k + |pattern| <= |s| && s[k..k + |pattern|] == pattern
  }

  /** s.find(pattern, from) */
  function Find(s: string, pattern: string, from: nat): (k: int)
    ensures k == -1 || (from <= k && OccursAt(s, pattern, k))
    ensures forall j: nat :: from <= j && OccursAt(s, pattern, j) ==> k != -1 && k <= j
    decreases |s| - from
  {
    if OccursAt(s, pattern, from) then from
    else if from + |pattern| >= |s| then -1
    else Find(s, pattern, from + 1)
  }

  // ---------------------------------------------------------------- collapsing piece by piece

  /** Not inside a run of whitespace. */
  predicate Boundary(s: string, p: nat) {
    p <= |s| && (0 < p < |s| ==> !IsSpace(s[p - 1]) || !IsSpace(s[p]))
  }

  lemma {:induction false} CollapseSplit(s: string, p: nat)
    requires Boundary(s, p)
    ensures Collapse(s) == Collapse(s[..p]) + Collapse(s[p..])
  {
    if p == 0 {
      assert s[0..] == s;
    } else {
      CollapseSplit(s[1..], p - 1);
      assert s[1..][..p - 1] == s[..p][1..] && s[1..][p - 1..] == s[p..];
      if p == 1 {
        assert s[..p][1..] == "";
      }
    }
  }

  lemma {:induction false} CollapseNonempty(s: string)
    requires s != ""
    ensures Collapse(s) != ""
  {
    FirstToken(s);
  }

  lemma AtStep(s: string, k: nat)
    requires 0 < k <= |Collapse(s)|
    ensures s != "" && k - 1 <= |Collapse(s[TokenEnd(s)..])|
    ensures At(s, k) == TokenEnd(s) + At(s[TokenEnd(s)..], k - 1)
  {
    FirstToken(s);
  }

  /** The collapsed character k starts at a boundary with exactly k collapsed characters before it. */
  lemma {:induction false} AtBoundary(s: string, k: nat)
    requires k <= |Collapse(s)|
    ensures Boundary(s, At(s, k)) && |Collapse(s[..At(s, k)])| == k
  {
    if k == 0 {
      assert s[..0] == "";
    } else {
      hide Collapse, TokenEnd, Boundary, At;
      AtStep(s, k);
      var n := TokenEnd(s);
      AtBoundary(s[n..], k - 1);
      TokenSplit(s, n, n + At(s[n..], k - 1));
    }
  }

  lemma TokenSplit(s: string, n: nat, p: nat)
    requires s != "" && n == TokenEnd(s) <= p <= |s| && Boundary(s[n..], p - n)
    ensures Boundary(s, p) && |Collapse(s[..p])| == 1 + |Collapse(s[n..][..p - n])|
  {
    hide Collapse;
    FirstToken(s);
    CollapseSplit(s, n);
    assert |Collapse(s[..n])| == 1;
    CollapseSplit(s[..p], n);
    assert s[..p][..n] == s[..n] && s[..p][n..] == s[n..][..p - n];
  }

  /** Boundaries are determined by what is before them. */
  lemma BoundariesOrdered(s: string, p: nat, q: nat)
    requires Boundary(s, p) && Boundary(s, q) && p < q
    ensures |Collapse(s[..p])| < |Collapse(s[..q])|
  {
    CollapseSplit(s[..q], p);
    assert s[..q][..p] == s[..p];
    CollapseNonempty(s[..q][p..]);
  }

  lemma AtIs(s: string, p: nat)
    requires Boundary(s, p)
    ensures |Collapse(s[..p])| <= |Collapse(s)| && At(s, |Collapse(s[..p])|) == p
  {
    CollapseSplit(s, p);
    var k := |Collapse(s[..p])|;
    AtBoundary(s, k);
    if At(s, k) < p {
      BoundariesOrdered(s, At(s, k), p);
    } else if p < At(s, k) {
      BoundariesOrdered(s, p, At(s, k));
    }
  }

  lemma AtOrdered(s: string, a: nat, b: nat)
    requires a <= b <= |Collapse(s)|
    ensures At(s, a) <= At(s, b)
  {
    AtBoundary(s, a);
    AtBoundary(s, b);
    if At(s, b) < At(s, a) {
      BoundariesOrdered(s, At(s, b), At(s, a));
    }
  }

  lemma TwoSplits(s: string, p: nat, q: nat)
    requires Boundary(s, p) && Boundary(s, q) && p <= q
    ensures Collapse(s) == Collapse(s[..p]) + Collapse(s[p..q]) + Collapse(s[q..])
  {
    CollapseSplit(s, q);
    CollapseSplit(s[..q], p);
    assert s[..q][..p] == s[..p] && s[..q][p..] == s[p..q];
  }

  /** The slice law: the text between two collapsed positions collapses to what is between them. */
  lemma SliceCollapses(s: string, a: nat, b: nat)
    requires a <= b <= |Collapse(s)|
    ensures At(s, a) <= At(s, b) && Collapse(s[At(s, a)..At(s, b)]) == Collapse(s)[a..b]
  {
    AtOrdered(s, a, b);
    AtBoundary(s, a);
    AtBoundary(s, b);
    var p, q := At(s, a), At(s, b);
    TwoSplits(s, p, q);
    CollapseSplit(s[..q], p);
    assert s[..q][..p] == s[..p] && s[..q][p..] == s[p..q];
  }

  // ---------------------------------------------------------------- the two lookups

  /** The original text of a quotation that occurs exactly once. */
  function SourceQuote(source: string, quote: string): Option<string> {
    var haystack, needle := Collapse(source), Collapse(Strip(quote));
    var start := if needle != "" then Find(haystack, needle, 0) else -1;
    if start < 0 || Find(haystack, needle, start + 1) >= 0 then None
    else
      SliceCollapses(source, start, start + |needle|);
      Some(source[At(source, start)..At(source, start + |needle|)])
  }

  /** Where a packed text lies in its source: exactly, or else up to whitespace. */
  function FindSourceRange(source: string, fragment: string): Option<Range> {
    var position := Find(source, fragment, 0);
    if position >= 0 then Some(Range(position, position + |fragment|))
    else
      var pattern := Strip(Collapse(fragment));
      var at := Find(Collapse(source), pattern, 0);
      if at < 0 || pattern == "" then None
      else Some(Range(At(source, at), At(source, at + |pattern|)))
  }

  // ---------------------------------------------------------------- the loop

  predicate TokenAt(s: string, r: Range, k: nat) {
    k + 1 <= |Collapse(s)| && r.start == At(s, k) && r.end == At(s, k + 1)
  }

  /** The offsets are where the collapsed characters came from. */
  predicate Offsets(s: string, offsets: seq<Range>) {
    forall k :: 0 <= k < |offsets| ==> TokenAt(s, offsets[k], k)
  }

  lemma TokenCollapses(s: string)
    requires s != ""
    ensures Boundary(s, TokenEnd(s)) && Collapse(s[..TokenEnd(s)]) == [if IsSpace(s[0]) then ' ' else s[0]]
  {
    var n := TokenEnd(s);
    FirstToken(s);
    CollapseSplit(s, n);
    assert |Collapse(s[..n])| == 1;
    assert Collapse(s[..n])[0] == Collapse(s)[0];
  }

  lemma NextOffset(s: string, index: nat, n: nat)
    requires index < |s| && Boundary(s, index) && n == TokenEnd(s[index..])
    ensures Boundary(s, index + n)
    ensures Collapse(s[..index + n]) == Collapse(s[..index]) + [if IsSpace(s[index]) then ' ' else s[index]]
    ensures TokenAt(s, Range(index, index + n), |Collapse(s[..index])|)
  {
    hide Collapse, At, TokenEnd;
    TokenCollapses(s[index..]);
    SlicesAgree(s, index, n);
    CollapseSplit(s[..index + n], index);
    AtIs(s, index);
    AtIs(s, index + n);
  }

  lemma SlicesAgree(s: string, index: nat, n: nat)
    requires index + n <= |s| && 0 < n
    ensures s[..index + n][..index] == s[..index] && s[..index + n][index..] == s[index..][..n]
    ensures Boundary(s[index..], n) ==> Boundary(s, index + n)
    ensures Boundary(s, index) ==> Boundary(s[..index + n], index)
  {
  }

  /** The inner loop: to the end of the run of whitespace that begins at index. */
  method RunOfSpaces(value: string, index: nat) returns (end: nat)
    requires index < |value| && IsSpace(value[index])
    ensures index < end <= |value| && end - index == TokenEnd(value[index..])
  {
    end := index + 1;
    while end < |value| && IsSpace(value[end])
      invariant index < end <= |value| && IsSpace(value[end - 1])
      invariant index + TokenEnd(value[index..]) == end - 1 + TokenEnd(value[end - 1..])
      decreases |value| - end
    {
      assert value[end - 1..][1..] == value[end..];
      end := end + 1;
    }
  }

  method Normalize(value: string) returns (output: string, offsets: seq<Range>)
    ensures output == Collapse(value) && |offsets| == |output| && Offsets(value, offsets)
  {
    output, offsets := "", [];
    var index := 0;
    while index < |value|
      invariant Boundary(value, index) && output == Collapse(value[..index])
      invariant |offsets| == |output| && Offsets(value, offsets)
    {
      hide Collapse;
      var end, c := index + 1, value[index];
      if IsSpace(value[index]) {
        end := RunOfSpaces(value, index);
        c := ' ';
      }
      NextOffset(value, index, end - index);
      output := output + [c];
      offsets := offsets + [Range(index, end)];
      index := end;
    }
    assert value[..index] == value;
  }

  method FindQuote(source: string, quote: string) returns (original: Option<string>)
    ensures original == SourceQuote(source, quote)
  {
    var haystack, offsets := Normalize(source);
    var needle, unused := Normalize(Strip(quote));
    var start := if needle != "" then Find(haystack, needle, 0) else -1;
    if start < 0 || Find(haystack, needle, start + 1) >= 0 {
      return None;
    }
    SliceCollapses(source, start, start + |needle|);
    assert TokenAt(source, offsets[start], start);
    assert TokenAt(source, offsets[start + |needle| - 1], start + |needle| - 1);
    return Some(source[offsets[start].start..offsets[start + |needle| - 1].end]);
  }

  method LocateFragment(source: string, fragment: string) returns (r: Option<Range>)
    ensures r == FindSourceRange(source, fragment)
  {
    var position := Find(source, fragment, 0);
    if position >= 0 {
      return Some(Range(position, position + |fragment|));
    }
    var haystack, offsets := Normalize(source);
    var collapsed, unused := Normalize(fragment);
    var pattern := Strip(collapsed);
    var at := Find(haystack, pattern, 0);
    if at < 0 || pattern == "" {
      return None;
    }
    assert TokenAt(source, offsets[at], at);
    assert TokenAt(source, offsets[at + |pattern| - 1], at + |pattern| - 1);
    return Some(Range(offsets[at].start, offsets[at + |pattern| - 1].end));
  }

  // ---------------------------------------------------------------- what the lookups mean

  /** source[i:j] reads as the collapsed text. */
  predicate Reads(source: string, i: nat, j: nat, collapsed: string) {
    i <= j <= |source| && Collapse(source[i..j]) == collapsed
  }

  /** No whitespace at either end. */
  predicate Trimmed(s: string) {
    s != "" && s[0] != ' ' && s[|s| - 1] != ' '
  }

  lemma {:induction false} LastCollapsed(s: string)
    requires s != ""
    ensures Collapse(s) != ""
    ensures Collapse(s)[|Collapse(s)| - 1] == (if IsSpace(s[|s| - 1]) then ' ' else s[|s| - 1])
  {
    if |s| > 1 {
      LastCollapsed(s[1..]);
    }
  }

  lemma StrippedIsTrimmed(s: string)
    requires Strip(s) != ""
    ensures Trimmed(Collapse(Strip(s)))
  {
    var t := Strip(s);
    FirstToken(t);
    LastCollapsed(t);
  }

  /** A slice that reads as a trimmed text is an occurrence in the collapsed source, and the occurrence gives back the
      slice. */
  lemma SliceIsOccurrence(source: string, i: nat, j: nat, needle: string)
    requires Trimmed(needle) && Reads(source, i, j, needle)
    ensures
      var k := |Collapse(source[..i])|;
      OccursAt(Collapse(source), needle, k) && At(source, k) == i && At(source, k + |needle|) == j
  {
    var t := source[i..j];
    FirstToken(t);
    LastCollapsed(t);
    assert t[0] == source[i] && t[|t| - 1] == source[j - 1];
    assert Boundary(source, i) && Boundary(source, j);
    TwoSplits(source, i, j);
    CollapseSplit(source[..j], i);
    assert source[..j][..i] == source[..i] && source[..j][i..] == t;
    AtIs(source, i);
    AtIs(source, j);
  }

  lemma OccurrenceReads(source: string, k: nat, needle: string)
    requires OccursAt(Collapse(source), needle, k)
    ensures Reads(source, At(source, k), At(source, k + |needle|), needle)
  {
    SliceCollapses(source, k, k + |needle|);
  }

  /** The only slice of the source that reads as the collapsed text. */
  ghost predicate OnlySlice(source: string, i: nat, j: nat, collapsed: string) {
    && Reads(source, i, j, collapsed)
    && forall a: nat, b: nat :: Reads(source, a, b, collapsed) ==> a == i && b == j
  }

  /** source_quote gives a value only when one and only one slice of the source reads as the quotation up to
      whitespace, and then the value is that slice. */
  lemma QuoteIsOnlySlice(source: string, quote: string) returns (i: nat, j: nat)
    requires SourceQuote(source, quote).Some?
    ensures OnlySlice(source, i, j, Collapse(Strip(quote))) && SourceQuote(source, quote) == Some(source[i..j])
  {
    hide Collapse, Strip, At;
    var needle := Collapse(Strip(quote));
    var start := Find(Collapse(source), needle, 0);
    OccurrenceReads(source, start, needle);
    i, j := At(source, start), At(source, start + |needle|);
    assert needle != "" && Strip(quote) != "" by { QuoteIsNotBlank(quote); }
    StrippedIsTrimmed(quote);
    forall a: nat, b: nat | Reads(source, a, b, needle) ensures a == i && b == j {
      SliceIsOccurrence(source, a, b, needle);
      assert OccursAt(Collapse(source), needle, |Collapse(source[..a])|);
    }
  }

  lemma QuoteIsNotBlank(quote: string)
    ensures Collapse(Strip(quote)) != "" ==> Strip(quote) != ""
  {
  }

  /** And it gives that value whenever there is only one such slice. */
  lemma OnlySliceIsQuote(source: string, quote: string, i: nat, j: nat)
    requires Strip(quote) != "" && OnlySlice(source, i, j, Collapse(Strip(quote)))
    ensures SourceQuote(source, quote) == Some(source[i..j])
  {
    hide Collapse, Strip, At;
    var needle := Collapse(Strip(quote));
    StrippedIsTrimmed(quote);
    SliceIsOccurrence(source, i, j, needle);
    var start := Find(Collapse(source), needle, 0);
    OccurrenceReads(source, start, needle);
    OccurrenceAt(source, start, i);
    var again := Find(Collapse(source), needle, start + 1);
    if again >= 0 {
      OccurrenceReads(source, again, needle);
      OccurrenceAt(source, again, i);
      assert false;
    }
  }

  lemma OccurrenceAt(source: string, k: nat, i: nat)
    requires k <= |Collapse(source)| && At(source, k) == i
    ensures i <= |source| && |Collapse(source[..i])| == k
  {
    AtBoundary(source, k);
  }

  /** _find_source_range: the slice it names is the fragment, or reads as the fragment up to whitespace; when it names
      none, no slice does. */
  lemma SourceRangeReads(source: string, fragment: string)
    ensures
      match FindSourceRange(source, fragment)
      case Some(r) =>
        r.start <= r.end <= |source| && (source[r.start..r.end] == fragment || Reads(source, r.start, r.end, Strip(Collapse(fragment))))
      case None =>
        Strip(Collapse(fragment)) != "" ==> forall a: nat, b: nat :: !Reads(source, a, b, Strip(Collapse(fragment)))
  {
    hide Collapse, Strip, At;
    var pattern := Strip(Collapse(fragment));
    var at := Find(Collapse(source), pattern, 0);
    if pattern != "" {
      if at >= 0 {
        OccurrenceReads(source, at, pattern);
      } else {
        assert Trimmed(pattern) by { StripTrims(Collapse(fragment)); }
        forall a: nat, b: nat ensures !Reads(source, a, b, pattern) {
          if Reads(source, a, b, pattern) {
            SliceIsOccurrence(source, a, b, pattern);
            assert false;
          }
        }
      }
    }
  }

  lemma StripTrims(s: string)
    ensures Strip(s) != "" ==> Trimmed(Strip(s))
  {
  }
}

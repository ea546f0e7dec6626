/** The first half of prose chunking: the text cut into stripped units, none above the hard limit. */
module ProseUnits {
  import opened ChunkText
  import opened HardSplit
  import opened Prelude
  import opened PythonText

  type Units = Result<seq<Range>, ChunkError>

  /** Both lists, in order; the first error wins. */
  function Chain(a: Units, b: Units): Units {
    var first :- a;
    var second :- b;
    Ok(first + second)
  }

  /** Where consecutive pieces lie when the first starts at offset. */
  function Placed(parts: seq<string>, offset: nat): seq<Range> {
    if parts == [] then []
    else [Range(offset, offset + |parts[0]|)] + Placed(parts[1..], offset + |parts[0]|)
  }

  /** The bounds of text[start:end] without its outer whitespace; empty bounds when it has nothing else. */
  function Stripped(text: string, start: nat, end: nat): (r: Range)
    requires start <= end <= |text|
    ensures start <= r.start <= r.end <= end
    ensures r.start < r.end ==> !IsSpace(text[r.start]) && !IsSpace(text[r.end - 1])
    decreases end - start
  {
    if start < end && IsSpace(text[start]) then Stripped(text, start + 1, end)
    else if start < end && IsSpace(text[end - 1]) then Stripped(text, start, end - 1)
    else Range(start, end)
  }

  /** The units of one piece of prose. */
  function UnitsOf(text: string, start: nat, end: nat, spec: ChunkSpec, count: Counter): Units
    requires start <= end <= |text|
  {
    var r := Stripped(text, start, end);
    if r.start == r.end then Ok([])
    else if count(Slice(text, r)) <= spec.max then Ok([r])
    else
      var parts :- Pieces(Slice(text, r), spec.target, count);
      Ok(Placed(parts, r.start))
  }

  /** The units between consecutive cut points. */
  function UnitsBetween(text: string, cuts: seq<nat>, spec: ChunkSpec, count: Counter): Units
    requires SortedWithin(cuts, |text|)
  {
    if |cuts| < 2 then Ok([])
    else Chain(UnitsOf(text, cuts[0], cuts[1], spec, count), UnitsBetween(text, cuts[1..], spec, count))
  }

  /** start, the sentence ends inside text[start:end], and end. */
  function SentenceCuts(text: string, start: nat, end: nat, sentences: Cuts): (r: seq<nat>)
    requires start <= end <= |text| && SortedWithin(sentences(text[start..end]), end - start)
    ensures SortedWithin(r, |text|) && |r| >= 2 && r[0] == start && r[|r| - 1] == end
  {
    var ends := sentences(text[start..end]);
    [start] + seq(|ends|, k requires 0 <= k < |ends| => start + ends[k]) + [end]
  }

  /** A paragraph that is too long for one chunk is taken sentence by sentence. */
  function ParagraphUnits(text: string, start: nat, end: nat, spec: ChunkSpec, count: Counter, sentences: Cuts): Units
    requires start <= end <= |text| && SortedWithin(sentences(text[start..end]), end - start)
  {
    if count(text[start..end]) <= spec.target then UnitsOf(text, start, end, spec, count)
    else UnitsBetween(text, SentenceCuts(text, start, end, sentences), spec, count)
  }

  /** The units of the paragraphs between consecutive boundaries. */
  ghost function ParagraphsUnits(text: string, bounds: seq<nat>, spec: ChunkSpec, count: Counter, sentences: Cuts): Units
    requires SortedWithin(bounds, |text|) && CutsTexts(sentences)
  {
    if |bounds| < 2 then Ok([])
    else
      assert SortedWithin(sentences(text[bounds[0]..bounds[1]]), bounds[1] - bounds[0]);
      Chain(ParagraphUnits(text, bounds[0], bounds[1], spec, count, sentences),
            ParagraphsUnits(text, bounds[1..], spec, count, sentences))
  }

  /** 0, the paragraph and list-item boundaries, and the end of the text. */
  function Bounds(text: string, paragraphs: Cuts): (r: seq<nat>)
    requires SortedWithin(paragraphs(text), |text|)
    ensures SortedWithin(r, |text|) && |r| >= 2 && r[0] == 0 && r[|r| - 1] == |text|
  {
    [0] + paragraphs(text) + [|text|]
  }

  ghost function AllUnits(text: string, spec: ChunkSpec, count: Counter, paragraphs: Cuts, sentences: Cuts): Units
    requires CutsTexts(paragraphs) && CutsTexts(sentences)
  {
    ParagraphsUnits(text, Bounds(text, paragraphs), spec, count, sentences)
  }

  // ---------------------------------------------------------------- the loops

  /** Two loops of the source strip one end each; the order does not matter. */
  method StripBounds(text: string, start: nat, end: nat) returns (r: Range)
    requires start <= end <= |text|
    ensures r == Stripped(text, start, end)
  {
    var left, right := start, end;
    while left < right && IsSpace(text[left])
      invariant start <= left <= right == end
      invariant Stripped(text, start, end) == Stripped(text, left, right)
    {
      left := left + 1;
    }
    while left < right && IsSpace(text[right - 1])
      invariant start <= left <= right <= end
      invariant left < right ==> !IsSpace(text[left])
      invariant Stripped(text, start, end) == Stripped(text, left, right)
    {
      right := right - 1;
    }
    return Range(left, right);
  }

  lemma PlacedStep(out: seq<Range>, parts: seq<string>, offset: nat)
    requires parts != []
    ensures out + Placed(parts, offset)
         == out + [Range(offset, offset + |parts[0]|)] + Placed(parts[1..], offset + |parts[0]|)
  {
  }

  method AppendParts(units: seq<Range>, parts: seq<string>, start: nat) returns (out: seq<Range>)
    ensures out == units + Placed(parts, start)
  {
    var offset: nat, k := start, 0;
    out := units;
    while k < |parts|
      invariant 0 <= k <= |parts|
      invariant units + Placed(parts, start) == out + Placed(parts[k..], offset)
    {
      PlacedStep(out, parts[k..], offset);
      assert parts[k..][1..] == parts[k + 1..];
      out := out + [Range(offset, offset + |parts[k]|)];
      offset := offset + |parts[k]|;
      k := k + 1;
    }
  }

  /** The inner function append of the source. */
  method AppendUnits(text: string, start: nat, end: nat, spec: ChunkSpec, count: Counter, units: seq<Range>)
    returns (result: Units)
    requires start <= end <= |text|
    ensures result == Chain(Ok(units), UnitsOf(text, start, end, spec, count))
  {
    var r := StripBounds(text, start, end);
    if r.start == r.end {
      assert units + [] == units;
      return Ok(units);
    }
    if count(Slice(text, r)) <= spec.max {
      return Ok(units + [r]);
    }
    var parts :- Split(Slice(text, r), spec.target, count);
    var out := AppendParts(units, parts, r.start);
    return Ok(out);
  }

  lemma ChainAssociates(a: Units, b: Units, c: Units)
    ensures Chain(Chain(a, b), c) == Chain(a, Chain(b, c))
    ensures Chain(Ok([]), a) == a == Chain(a, Ok([]))
  {
    if a.Ok? {
      assert [] + a.value == a.value == a.value + [];
      if b.Ok? && c.Ok? {
        assert (a.value + b.value) + c.value == a.value + (b.value + c.value);
      }
    }
  }

  /** for left, right in zip(cuts, cuts[1:]): append(left, right) */
  method AppendBetween(text: string, cuts: seq<nat>, spec: ChunkSpec, count: Counter, units: seq<Range>)
    returns (result: Units)
    requires SortedWithin(cuts, |text|) && |cuts| >= 2
    ensures result == Chain(Ok(units), UnitsBetween(text, cuts, spec, count))
  {
    var out, k := units, 0;
    while k + 1 < |cuts|
      invariant 0 <= k < |cuts|
      invariant Chain(Ok(units), UnitsBetween(text, cuts, spec, count))
             == Chain(Ok(out), UnitsBetween(text, cuts[k..], spec, count))
    {
      ChainAssociates(Ok(out), UnitsOf(text, cuts[k], cuts[k + 1], spec, count),
                      UnitsBetween(text, cuts[k + 1..], spec, count));
      assert cuts[k..][1..] == cuts[k + 1..];
      out :- AppendUnits(text, cuts[k], cuts[k + 1], spec, count, out);
      k := k + 1;
    }
    ChainAssociates(Ok(out), Ok([]), Ok([]));
    return Ok(out);
  }

  method AppendParagraph(text: string, start: nat, end: nat, spec: ChunkSpec, count: Counter, sentences: Cuts, units: seq<Range>)
    returns (result: Units)
    requires start <= end <= |text| && SortedWithin(sentences(text[start..end]), end - start)
    ensures result == Chain(Ok(units), ParagraphUnits(text, start, end, spec, count, sentences))
  {
    if count(text[start..end]) <= spec.target {
      result := AppendUnits(text, start, end, spec, count, units);
    } else {
      result := AppendBetween(text, SentenceCuts(text, start, end, sentences), spec, count, units);
    }
  }

  lemma ParagraphsStep(text: string, bounds: seq<nat>, k: nat, spec: ChunkSpec, count: Counter, sentences: Cuts, out: seq<Range>)
    requires SortedWithin(bounds, |text|) && k + 1 < |bounds| && CutsTexts(sentences)
    ensures SortedWithin(bounds[k..], |text|) && SortedWithin(bounds[k + 1..], |text|)
    ensures SortedWithin(sentences(text[bounds[k]..bounds[k + 1]]), bounds[k + 1] - bounds[k])
    ensures Chain(Ok(out), ParagraphsUnits(text, bounds[k..], spec, count, sentences))
         == Chain(Chain(Ok(out), ParagraphUnits(text, bounds[k], bounds[k + 1], spec, count, sentences)),
                  ParagraphsUnits(text, bounds[k + 1..], spec, count, sentences))
  {
    assert SortedWithin(sentences(text[bounds[k]..bounds[k + 1]]), bounds[k + 1] - bounds[k]);
    ChainAssociates(Ok(out), ParagraphUnits(text, bounds[k], bounds[k + 1], spec, count, sentences),
                    ParagraphsUnits(text, bounds[k + 1..], spec, count, sentences));
    assert bounds[k..][1..] == bounds[k + 1..];
  }

  /** The loop over paragraphs. */
  method BuildUnits(text: string, spec: ChunkSpec, count: Counter, paragraphs: Cuts, sentences: Cuts)
    returns (result: Units)
    requires CutsTexts(paragraphs) && CutsTexts(sentences)
    ensures result == AllUnits(text, spec, count, paragraphs, sentences)
  {
    assert SortedWithin(paragraphs(text), |text|);
    var bounds := Bounds(text, paragraphs);
    var out: seq<Range>, k := [], 0;
    ChainAssociates(AllUnits(text, spec, count, paragraphs, sentences), Ok([]), Ok([]));
    while k + 1 < |bounds|
      invariant 0 <= k < |bounds|
      invariant AllUnits(text, spec, count, paragraphs, sentences)
             == Chain(Ok(out), ParagraphsUnits(text, bounds[k..], spec, count, sentences))
    {
      ParagraphsStep(text, bounds, k, spec, count, sentences, out);
      out :- AppendParagraph(text, bounds[k], bounds[k + 1], spec, count, sentences, out);
      k := k + 1;
    }
    ChainAssociates(Ok(out), Ok([]), Ok([]));
    return Ok(out);
  }

  // ---------------------------------------------------------------- what the units are

  /** Units in order, apart from each other, within [from, to), none above the limit, and nothing but
      whitespace between them. */
  ghost predicate Tiles(text: string, units: seq<Range>, from: nat, to: nat, max: nat, count: Counter) {
    && from <= to <= |text|
    && (forall k :: 0 <= k < |units| ==>
          Within(units[k], text) && from <= units[k].start && units[k].end <= to && count(Slice(text, units[k])) <= max)
    && (forall j, k :: 0 <= j < k < |units| ==> units[j].end <= units[k].start)
    && (forall p :: from <= p < to && !IsSpace(text[p]) ==> Covers(units, p))
  }

  lemma CoversConcat(a: seq<Range>, b: seq<Range>, p: nat)
    ensures Covers(a + b, p) <==> Covers(a, p) || Covers(b, p)
  {
    if k :| 0 <= k < |a| && a[k].start <= p < a[k].end {
      assert (a + b)[k] == a[k];
    }
    if k :| 0 <= k < |b| && b[k].start <= p < b[k].end {
      assert (a + b)[|a| + k] == b[k];
    }
  }

  lemma TilesConcat(text: string, a: seq<Range>, b: seq<Range>, from: nat, mid: nat, to: nat, max: nat, count: Counter)
    requires Tiles(text, a, from, mid, max, count) && Tiles(text, b, mid, to, max, count)
    ensures Tiles(text, a + b, from, to, max, count)
  {
    forall p | from <= p < to && !IsSpace(text[p]) ensures Covers(a + b, p) {
      CoversConcat(a, b, p);
    }
  }

  lemma ChainTiles(text: string, a: Units, b: Units, from: nat, mid: nat, to: nat, max: nat, count: Counter)
    requires Chain(a, b).Ok?
    requires Tiles(text, a.value, from, mid, max, count) && Tiles(text, b.value, mid, to, max, count)
    ensures Tiles(text, Chain(a, b).value, from, to, max, count)
  {
    TilesConcat(text, a.value, b.value, from, mid, to, max, count);
  }

  lemma {:induction false} PlacedTiles(text: string, parts: seq<string>, offset: nat, target: nat, max: nat, count: Counter)
    requires target <= max && Fit(parts, target, count)
    requires offset + |Joined(parts)| <= |text| && text[offset..offset + |Joined(parts)|] == Joined(parts)
    ensures Tiles(text, Placed(parts, offset), offset, offset + |Joined(parts)|, max, count)
  {
    if parts != [] {
      var mid := offset + |parts[0]|;
      var first := Range(offset, mid);
      var joined := Joined(parts);
      assert joined[..|parts[0]|] == parts[0] && joined[|parts[0]|..] == Joined(parts[1..]);
      assert Slice(text, first) == text[offset..offset + |joined|][..|parts[0]|] == parts[0];
      assert text[mid..mid + |Joined(parts[1..])|] == text[offset..offset + |joined|][|parts[0]|..];
      PlacedTiles(text, parts[1..], mid, target, max, count);
      forall p | offset <= p < mid ensures Covers([first], p) {
        assert [first][0] == first;
      }
      TilesConcat(text, [first], Placed(parts[1..], mid), offset, mid, offset + |joined|, max, count);
    }
  }

  lemma {:induction false} StrippedKeepsText(text: string, start: nat, end: nat)
    requires start <= end <= |text|
    ensures var r := Stripped(text, start, end);
            forall p :: start <= p < end && !IsSpace(text[p]) ==> r.start <= p < r.end
    decreases end - start
  {
    if start < end && IsSpace(text[start]) {
      StrippedKeepsText(text, start + 1, end);
    } else if start < end && IsSpace(text[end - 1]) {
      StrippedKeepsText(text, start, end - 1);
    }
  }

  /** What no unit exceeds: the hard limit, unless pieces are cut to a larger target. */
  function Larger(spec: ChunkSpec): nat {
    if spec.target <= spec.max then spec.max else spec.target
  }

  lemma UnitsOfTile(text: string, start: nat, end: nat, spec: ChunkSpec, count: Counter)
    requires start <= end <= |text|
    requires UnitsOf(text, start, end, spec, count).Ok?
    ensures Tiles(text, UnitsOf(text, start, end, spec, count).value, start, end, Larger(spec), count)
  {
    var r := Stripped(text, start, end);
    StrippedKeepsText(text, start, end);
    if r.start < r.end {
      if count(Slice(text, r)) <= spec.max {
        assert [r][0] == r;
      } else {
        PiecesPartition(Slice(text, r), spec.target, count);
        PlacedTiles(text, Pieces(Slice(text, r), spec.target, count).value, r.start, spec.target, Larger(spec), count);
      }
    }
  }

  lemma {:induction false} UnitsBetweenTile(text: string, cuts: seq<nat>, spec: ChunkSpec, count: Counter)
    requires SortedWithin(cuts, |text|) && |cuts| >= 1
    requires UnitsBetween(text, cuts, spec, count).Ok?
    ensures Tiles(text, UnitsBetween(text, cuts, spec, count).value, cuts[0], cuts[|cuts| - 1], Larger(spec), count)
  {
    if |cuts| >= 2 {
      hide Tiles;
      var first, rest := UnitsOf(text, cuts[0], cuts[1], spec, count), UnitsBetween(text, cuts[1..], spec, count);
      assert UnitsBetween(text, cuts, spec, count) == Chain(first, rest);
      UnitsOfTile(text, cuts[0], cuts[1], spec, count);
      UnitsBetweenTile(text, cuts[1..], spec, count);
      ChainTiles(text, first, rest, cuts[0], cuts[1], cuts[|cuts| - 1], Larger(spec), count);
    }
  }

  lemma ParagraphTiles(text: string, start: nat, end: nat, spec: ChunkSpec, count: Counter, sentences: Cuts)
    requires start <= end <= |text|
    requires SortedWithin(sentences(text[start..end]), end - start)
    requires ParagraphUnits(text, start, end, spec, count, sentences).Ok?
    ensures Tiles(text, ParagraphUnits(text, start, end, spec, count, sentences).value, start, end, Larger(spec), count)
  {
    if count(text[start..end]) <= spec.target {
      UnitsOfTile(text, start, end, spec, count);
    } else {
      UnitsBetweenTile(text, SentenceCuts(text, start, end, sentences), spec, count);
    }
  }

  lemma {:induction false} ParagraphsTile(text: string, bounds: seq<nat>, spec: ChunkSpec, count: Counter, sentences: Cuts)
    requires SortedWithin(bounds, |text|) && |bounds| >= 1 && CutsTexts(sentences)
    requires ParagraphsUnits(text, bounds, spec, count, sentences).Ok?
    ensures Tiles(text, ParagraphsUnits(text, bounds, spec, count, sentences).value,
                  bounds[0], bounds[|bounds| - 1], Larger(spec), count)
  {
    if |bounds| >= 2 {
      assert SortedWithin(sentences(text[bounds[0]..bounds[1]]), bounds[1] - bounds[0]);
      var first := ParagraphUnits(text, bounds[0], bounds[1], spec, count, sentences);
      var rest := ParagraphsUnits(text, bounds[1..], spec, count, sentences);
      assert ParagraphsUnits(text, bounds, spec, count, sentences) == Chain(first, rest);
      hide Tiles;
      ParagraphTiles(text, bounds[0], bounds[1], spec, count, sentences);
      ParagraphsTile(text, bounds[1..], spec, count, sentences);
      ChainTiles(text, first, rest, bounds[0], bounds[1], bounds[|bounds| - 1], Larger(spec), count);
    }
  }

  /** The units tile the whole text. */
  lemma UnitsTileText(text: string, spec: ChunkSpec, count: Counter, paragraphs: Cuts, sentences: Cuts)
    requires CutsTexts(paragraphs) && CutsTexts(sentences)
    requires AllUnits(text, spec, count, paragraphs, sentences).Ok?
    ensures Tiles(text, AllUnits(text, spec, count, paragraphs, sentences).value, 0, |text|, Larger(spec), count)
  {
    assert SortedWithin(paragraphs(text), |text|);
    ParagraphsTile(text, Bounds(text, paragraphs), spec, count, sentences);
  }
}

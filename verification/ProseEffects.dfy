/** What prose chunking does, from the text and its units: which units a text has, when an interval is closed, where the next
    one begins, and when the last two are merged. */
module ProseEffects {
  import opened ChunkText
  import opened HardSplit
  import opened Prelude
  import opened ProsePacking
  import opened ProseUnits
  import opened PythonText

  // ---------------------------------------------------------------- the units

  /** The text between the bounds has a character that is no space, at least at both ends of this range, and none outside it. */
  predicate Trimmed(text: string, start: nat, end: nat, r: Range)
    requires start <= end <= |text|
  {
    && start <= r.start < r.end <= end && !IsSpace(text[r.start]) && !IsSpace(text[r.end - 1])
    && (forall p :: start <= p < r.start ==> IsSpace(text[p]))
    && (forall p :: r.end <= p < end ==> IsSpace(text[p]))
  }

  /** Ranges one behind the other, as long as the pieces. */
  ghost predicate Along(ranges: seq<Range>, pieces: seq<string>, start: nat) {
    && |ranges| == |pieces|
    && (forall k :: 0 <= k < |ranges| ==> ranges[k].end == ranges[k].start + |pieces[k]|)
    && (|ranges| > 0 ==> ranges[0].start == start)
    && (forall j, k :: 0 <= j && k == j + 1 && k < |ranges| ==> ranges[k].start == ranges[j].end)
  }

  lemma {:induction false} PlacedAlong(pieces: seq<string>, start: nat)
    ensures Along(Placed(pieces, start), pieces, start)
  {
    if pieces != [] {
      PlacedAlong(pieces[1..], start + |pieces[0]|);
    }
  }

  /** The units of a stretch: none when it is blank, all of it without outer whitespace when that fits the limit, else its
      pieces. */
  lemma UnitsOfMean(text: string, start: nat, end: nat, spec: ChunkSpec, count: Counter) returns (r: Range)
    requires start <= end <= |text|
    ensures
      var units := UnitsOf(text, start, end, spec, count);
      if forall p :: start <= p < end ==> IsSpace(text[p]) then units == Ok([])
      else
        && Trimmed(text, start, end, r)
        && if count(text[r.start..r.end]) <= spec.max then units == Ok([r])
           else
             var pieces := Pieces(text[r.start..r.end], spec.target, count);
             if pieces.Err? then units == Err(pieces.error) else units.Ok? && Along(units.value, pieces.value, r.start)
  {
    hide Pieces;
    r := Stripped(text, start, end);
    StrippedKeepsText(text, start, end);
    if r.start < r.end {
      assert Trimmed(text, start, end, r);
      if count(Slice(text, r)) > spec.max && Pieces(Slice(text, r), spec.target, count).Ok? {
        PlacedAlong(Pieces(Slice(text, r), spec.target, count).value, r.start);
      }
    }
  }

  /** Units of one stretch before those of the rest; the first error counts. */
  predicate Together(first: Units, rest: Units, all: Units) {
    if first.Err? then all == first
    else if rest.Err? then all == rest
    else all == Ok(first.value + rest.value)
  }

  /** A paragraph within the target is one stretch; a longer one is cut behind its sentences. */
  lemma ParagraphMeans(text: string, start: nat, end: nat, spec: ChunkSpec, count: Counter, sentences: Cuts)
    requires start <= end <= |text| && SortedWithin(sentences(text[start..end]), end - start)
    ensures
      var units, cuts := ParagraphUnits(text, start, end, spec, count, sentences), SentenceCuts(text, start, end, sentences);
      && |cuts| == |sentences(text[start..end])| + 2 && cuts[0] == start && cuts[|cuts| - 1] == end
      && (forall k :: 0 < k < |cuts| - 1 ==> cuts[k] == start + sentences(text[start..end])[k - 1])
      && (count(text[start..end]) <= spec.target ==> units == UnitsOf(text, start, end, spec, count))
      && (count(text[start..end]) > spec.target ==> units == UnitsBetween(text, cuts, spec, count))
  {
    hide UnitsOf, UnitsBetween;
  }

  lemma BetweenMeans(text: string, cuts: seq<nat>, spec: ChunkSpec, count: Counter)
    requires SortedWithin(cuts, |text|)
    ensures |cuts| < 2 ==> UnitsBetween(text, cuts, spec, count) == Ok([])
    ensures
      |cuts| >= 2 ==> Together(UnitsOf(text, cuts[0], cuts[1], spec, count), UnitsBetween(text, cuts[1..], spec, count),
                               UnitsBetween(text, cuts, spec, count))
  {
    hide UnitsOf;
  }

  /** The units of a text are those of its paragraphs, from its start to its end. */
  lemma AllUnitsMean(text: string, bounds: seq<nat>, spec: ChunkSpec, count: Counter, paragraphs: Cuts, sentences: Cuts)
    requires CutsTexts(paragraphs) && CutsTexts(sentences) && SortedWithin(bounds, |text|)
    ensures
      bounds == [0] + paragraphs(text) + [|text|] ==>
        AllUnits(text, spec, count, paragraphs, sentences) == ParagraphsUnits(text, bounds, spec, count, sentences)
    ensures |bounds| < 2 ==> ParagraphsUnits(text, bounds, spec, count, sentences) == Ok([])
    ensures
      |bounds| >= 2 ==>
        && SortedWithin(sentences(text[bounds[0]..bounds[1]]), bounds[1] - bounds[0])
        && Together(ParagraphUnits(text, bounds[0], bounds[1], spec, count, sentences),
                    ParagraphsUnits(text, bounds[1..], spec, count, sentences), ParagraphsUnits(text, bounds, spec, count, sentences))
  {
    hide ParagraphUnits;
    assert |bounds| >= 2 ==> SortedWithin(sentences(text[bounds[0]..bounds[1]]), bounds[1] - bounds[0]);
    assert SortedWithin(paragraphs(text), |text|);
  }

  // ---------------------------------------------------------------- the intervals

  /** The units from lo up to hi make one interval. */
  datatype Group = Group(lo: nat, hi: nat)

  /** The tokens from the start of one unit to the end of another. */
  function Tokens(text: string, units: seq<Range>, first: nat, last: nat, count: Counter): nat
    requires Apart(text, units) && first <= last < |units|
  {
    count(text[units[first].start..units[last].end])
  }

  /** The units from j up to hi may be repeated. */
  predicate InOverlap(text: string, units: seq<Range>, j: nat, hi: nat, spec: ChunkSpec, count: Counter)
    requires Apart(text, units) && j < hi <= |units|
  {
    Tokens(text, units, j, hi - 1, count) <= spec.overlap
  }

  /** Unit `entry` came into the group anyhow, the later ones because they stayed within the target. */
  ghost predicate Filled(text: string, units: seq<Range>, g: Group, entry: nat, spec: ChunkSpec, count: Counter)
    requires Apart(text, units)
  {
    g.lo < g.hi <= |units| && forall i :: entry < i < g.hi && g.lo <= i ==> Tokens(text, units, g.lo, i, count) <= spec.target
  }

  /** Where the group after the units up to hi begins: with the longest run of their last units that all stay within the
      overlap, less those that together with the next unit are above the limit. */
  ghost predicate Begins(text: string, units: seq<Range>, g: Group, t: nat, next: nat, spec: ChunkSpec, count: Counter)
    requires Apart(text, units)
  {
    && g.lo < g.hi < |units| && g.lo <= t <= next <= g.hi
    && (forall j :: t <= j < g.hi ==> InOverlap(text, units, j, g.hi, spec, count))
    && (t > g.lo ==> !InOverlap(text, units, t - 1, g.hi, spec, count))
    && (forall j :: t <= j < next ==> Tokens(text, units, j, g.hi, count) > spec.max)
    && (next < g.hi ==> Tokens(text, units, next, g.hi, count) <= spec.max)
  }

  /** Group k is closed because the next unit would take it above the target, and the next group begins behind it. */
  ghost predicate Closed(text: string, units: seq<Range>, g: Group, next: nat, spec: ChunkSpec, count: Counter)
    requires Apart(text, units)
  {
    && g.lo < g.hi < |units| && Tokens(text, units, g.lo, g.hi, count) > spec.target
    && exists t :: Begins(text, units, g, t, next, spec, count)
  }

  /** The first unit that group k adds to those before it. */
  function Entry(groups: seq<Group>, k: nat): nat
    requires k <= |groups|
  {
    if k == 0 then 0 else groups[k - 1].hi
  }

  /** The groups up to now. */
  ghost predicate Grouped(text: string, units: seq<Range>, groups: seq<Group>, spec: ChunkSpec, count: Counter)
    requires Apart(text, units)
  {
    && (|groups| > 0 ==> groups[0].lo == 0)
    && (forall k :: 0 <= k < |groups| ==> Filled(text, units, groups[k], Entry(groups, k), spec, count))
    && (forall j, k :: 0 <= j && k == j + 1 && k < |groups| ==>
          groups[j].hi < groups[k].hi && Closed(text, units, groups[j], groups[k].lo, spec, count))
  }

  /** The units lo up to i are being collected behind the groups. */
  ghost predicate Collecting(text: string, units: seq<Range>, groups: seq<Group>, lo: nat, i: nat, spec: ChunkSpec, count: Counter)
    requires Apart(text, units)
  {
    && Grouped(text, units, groups, spec, count)
    && Filled(text, units, Group(lo, i), Entry(groups, |groups|), spec, count)
    && (groups == [] ==> lo == 0)
    && (groups != [] ==> groups[|groups| - 1].hi < i && Closed(text, units, groups[|groups| - 1], lo, spec, count))
  }

  predicate Placeable(units: seq<Range>, groups: seq<Group>) {
    forall k :: 0 <= k < |groups| ==> groups[k].lo < groups[k].hi <= |units|
  }

  /** The stretch of the text that a group takes. */
  function Stretches(units: seq<Range>, groups: seq<Group>): (r: seq<Range>)
    requires Placeable(units, groups)
    ensures |r| == |groups| && forall k :: 0 <= k < |r| ==> r[k] == Range(units[groups[k].lo].start, units[groups[k].hi - 1].end)
  {
    seq(|groups|, k requires 0 <= k < |groups| => Range(units[groups[k].lo].start, units[groups[k].hi - 1].end))
  }

  /** The intervals of the groups; the last one is merged with the one before when it counts less than the minimum and both
      together are within the limit. */
  ghost predicate Intervals(text: string, units: seq<Range>, groups: seq<Group>, out: seq<Range>, spec: ChunkSpec, count: Counter)
    requires Apart(text, units) && Placeable(units, groups) && groups != [] && groups[|groups| - 1].hi == |units|
  {
    var all, n := Stretches(units, groups), |groups| - 1;
    if n > 0 && all[n].start <= all[n].end <= |text| && count(text[all[n].start..all[n].end]) < spec.min
       && all[n - 1].start <= all[n].end && count(text[all[n - 1].start..all[n].end]) <= spec.max
    then out == all[..n - 1] + [Range(all[n - 1].start, all[n].end)]
    else out == all
  }

  lemma GroupedIsPlaceable(text: string, units: seq<Range>, groups: seq<Group>, spec: ChunkSpec, count: Counter)
    requires Apart(text, units) && Grouped(text, units, groups, spec, count)
    ensures Placeable(units, groups)
  {
    forall k | 0 <= k < |groups| ensures groups[k].lo < groups[k].hi <= |units| {
      assert Filled(text, units, groups[k], Entry(groups, k), spec, count);
    }
  }

  lemma SameTokens(text: string, units: seq<Range>, j: nat, k: nat, count: Counter)
    requires Apart(text, units) && j <= k < |units|
    ensures Stretch(text, units, j, k, count) == Tokens(text, units, j, k, count)
  {
  }

  lemma NextBegins(text: string, units: seq<Range>, lo: nat, i: nat, spec: ChunkSpec, count: Counter)
    requires Apart(text, units) && lo < i < |units| && Tokens(text, units, lo, i, count) > spec.target
    ensures Closed(text, units, Group(lo, i), NextStart(text, units, lo, i, spec, count), spec, count)
  {
    hide Stretch, Tokens;
    var t := TailStart(text, units, lo, i, i - 1, spec, count);
    forall j, k | 0 <= j <= k < |units| ensures Stretch(text, units, j, k, count) == Tokens(text, units, j, k, count) {
      SameTokens(text, units, j, k, count);
    }
    assert Begins(text, units, Group(lo, i), t, Displaced(text, units, t, i, spec, count), spec, count);
  }

  lemma GroupCloses(text: string, units: seq<Range>, groups: seq<Group>, lo: nat, i: nat, next: nat, spec: ChunkSpec, count: Counter)
    requires Apart(text, units) && Collecting(text, units, groups, lo, i, spec, count)
    requires next <= i < |units| && Closed(text, units, Group(lo, i), next, spec, count)
    ensures Collecting(text, units, groups + [Group(lo, i)], next, i + 1, spec, count)
  {
    hide Closed, Filled;
    assert Filled(text, units, Group(next, i + 1), i, spec, count) by { OneUnit(text, units, next, i, spec, count); }
    GroupsGrow(text, units, groups, Group(lo, i), spec, count);
  }

  /** A group that may follow the others. */
  lemma GroupsGrow(text: string, units: seq<Range>, groups: seq<Group>, g: Group, spec: ChunkSpec, count: Counter)
    requires Apart(text, units) && Collecting(text, units, groups, g.lo, g.hi, spec, count)
    ensures Grouped(text, units, groups + [g], spec, count)
  {
    hide Closed, Filled;
    var more := groups + [g];
    forall k | 0 <= k < |more| ensures Filled(text, units, more[k], Entry(more, k), spec, count) {
      if k < |groups| {
        assert Filled(text, units, groups[k], Entry(groups, k), spec, count);
      }
    }
  }

  lemma OneUnit(text: string, units: seq<Range>, next: nat, i: nat, spec: ChunkSpec, count: Counter)
    requires Apart(text, units) && next <= i < |units|
    ensures Filled(text, units, Group(next, i + 1), i, spec, count)
  {
  }

  lemma GroupGrows(text: string, units: seq<Range>, groups: seq<Group>, lo: nat, i: nat, spec: ChunkSpec, count: Counter)
    requires Apart(text, units) && Collecting(text, units, groups, lo, i, spec, count)
    requires lo < i < |units| && Tokens(text, units, lo, i, count) <= spec.target
    ensures Collecting(text, units, groups, lo, i + 1, spec, count)
  {
    hide Closed, Grouped;
  }

  lemma {:induction false} PackGroups(text: string, units: seq<Range>, lo: nat, i: nat, done: seq<Group>, out: seq<Range>,
                                      spec: ChunkSpec, count: Counter)
    returns (groups: seq<Group>)
    requires Apart(text, units) && lo < i <= |units| && Behind(out, units, lo)
    requires Collecting(text, units, done, lo, i, spec, count)
    requires Placeable(units, done) && out == Stretches(units, done)
    ensures groups != [] && Grouped(text, units, groups, spec, count) && Placeable(units, groups) && groups[|groups| - 1].hi == |units|
    ensures Intervals(text, units, groups, Pack(text, units, lo, i, out, spec, count), spec, count)
    decreases |units| - i
  {
    hide Collecting, Grouped, Closed, Intervals, Pack, NextStart;
    if i < |units| {
      PackStep(text, units, lo, i, out, spec, count);
      if Stretch(text, units, lo, i, count) > spec.target {
        var next, more := NextStart(text, units, lo, i, spec, count), done + [Group(lo, i)];
        NextBegins(text, units, lo, i, spec, count);
        GroupCloses(text, units, done, lo, i, next, spec, count);
        assert out + [Whole(units, lo, i)] == Stretches(units, more);
        groups := PackGroups(text, units, next, i + 1, more, out + [Whole(units, lo, i)], spec, count);
      } else {
        GroupGrows(text, units, done, lo, i, spec, count);
        groups := PackGroups(text, units, lo, i + 1, done, out, spec, count);
      }
    } else {
      groups := done + [Group(lo, i)];
      GroupsGrow(text, units, done, Group(lo, i), spec, count);
      GroupedIsPlaceable(text, units, groups, spec, count);
      LastGroup(text, units, lo, done, groups, out, spec, count);
    }
  }

  lemma LastGroup(text: string, units: seq<Range>, lo: nat, done: seq<Group>, groups: seq<Group>, out: seq<Range>, spec: ChunkSpec,
                  count: Counter)
    requires Apart(text, units) && lo < |units| && Behind(out, units, lo)
    requires Placeable(units, done) && out == Stretches(units, done)
    requires groups == done + [Group(lo, |units|)] && Placeable(units, groups)
    ensures Intervals(text, units, groups, Pack(text, units, lo, |units|, out, spec, count), spec, count)
  {
    hide Finish, Intervals;
    var last := Whole(units, lo, |units|);
    assert Stretches(units, groups) == out + [last];
    assert Pack(text, units, lo, |units|, out, spec, count) == Finish(text, out, last, spec, count);
    FinishMerges(text, units, groups, out, last, spec, count);
  }

  lemma FinishMerges(text: string, units: seq<Range>, groups: seq<Group>, out: seq<Range>, last: Range, spec: ChunkSpec, count: Counter)
    requires Apart(text, units) && Placeable(units, groups) && groups != [] && groups[|groups| - 1].hi == |units|
    requires Stretches(units, groups) == out + [last]
    requires Within(last, text) && forall k :: 0 <= k < |out| ==> out[k].start <= last.start
    ensures Intervals(text, units, groups, Finish(text, out, last, spec, count), spec, count)
  {
    hide Apart, Stretches;
    var all := Stretches(units, groups);
    assert all == out + [last] && |all| == |groups|;
    assert all[..|out|] == out && all[|out|] == last;
    if |out| > 0 {
      assert all[..|out| - 1] == out[..|out| - 1] && all[|out| - 1] == out[|out| - 1];
    }
  }

  /** The intervals of a text with units: its units are grouped in order; each group is closed by the unit that would take it
      above the target, the next begins with as many of its last units as overlap and limit allow, and the last two are merged
      when the last is small. A text without units has none. */
  lemma IntervalsExactly(text: string, spec: ChunkSpec, count: Counter, paragraphs: Cuts, sentences: Cuts)
    returns (units: seq<Range>, groups: seq<Group>)
    requires CutsTexts(paragraphs) && CutsTexts(sentences)
    ensures
      var out := ProseRanges(text, spec, count, paragraphs, sentences);
      var all := AllUnits(text, spec, count, paragraphs, sentences);
      if all.Err? then out == Err(all.error)
      else
        && out.Ok? && all.value == units && Apart(text, units)
        && (units == [] ==> out.value == [])
        && (units != [] ==>
              && groups != [] && Grouped(text, units, groups, spec, count) && Placeable(units, groups) && groups[|groups| - 1].hi == |units|
              && Intervals(text, units, groups, out.value, spec, count))
  {
    hide Grouped, Intervals, AllUnits, Apart, Tiles, Collecting, Stretch, NextStart;
    units, groups := [], [];
    var all := AllUnits(text, spec, count, paragraphs, sentences);
    if all.Ok? {
      units := all.value;
      UnitsTileText(text, spec, count, paragraphs, sentences);
      TilesApart(text, units, Larger(spec), count);
      if units != [] {
        PackStep(text, units, 0, 0, [], spec, count);
        assert Collecting(text, units, [], 0, 1, spec, count) by { FirstUnit(text, units, spec, count); }
        groups := PackGroups(text, units, 0, 1, [], [], spec, count);
      }
    }
  }

  lemma FirstUnit(text: string, units: seq<Range>, spec: ChunkSpec, count: Counter)
    requires Apart(text, units) && units != []
    ensures Collecting(text, units, [], 0, 1, spec, count)
  {
  }
}

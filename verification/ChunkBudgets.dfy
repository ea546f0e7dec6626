/** When chunking cannot fail, and that every chunk is then within the limit with its heading included. */
module ChunkBudgets {
  import opened ChunkElements
  import opened ChunkText
  import opened ChunkTrace
  import opened HardSplit
  import opened Headings
  import opened Prelude
  import opened ProsePacking
  import opened ProseUnits
  import opened TextRuns

  /** What is assumed of a tokenizer. */
  ghost predicate Modest(count: Counter) {
    && PrefixMonotone(count) && Subadditive(count)
    && (forall c: char :: count([c]) <= 3)
    && count("\n\n") <= 2
  }

  /** Outside tables: no path is too long and without a nearest heading. */
  predicate Plain(e: Element, limit: nat, count: Counter) {
    e.modality != Table && !NoHeading(e.meta.sectionPath, limit, count)
  }

  predicate AllPlain(elements: seq<Element>, limit: nat, count: Counter) {
    forall e :: e in elements ==> Plain(e, limit, count)
  }

  /** Single characters fit the target, or no text exceeds the limit. */
  ghost predicate TargetHoldsCharacters(target: nat, limit: nat, count: Counter) {
    (forall c: char :: count([c]) <= target) || (forall s: string :: count(s) <= limit)
  }

  // ---------------------------------------------------------------- headings

  lemma CharactersFit(count: Counter, s: string, target: nat)
    requires Modest(count) && target >= 3
    ensures Pieces(s, target, count).Ok?
  {
    forall c: char ensures count([c]) <= target {
    }
    SmallCharactersSplit(s, target, count);
  }

  lemma FirstPieceFits(count: Counter, s: string, target: nat)
    requires Modest(count) && target >= 3 && s != ""
    ensures Pieces(s, target, count).Ok? && Pieces(s, target, count).value != []
    ensures count(Pieces(s, target, count).value[0]) <= target
  {
    CharactersFit(count, s, target);
    PiecesPartition(s, target, count);
  }

  lemma HeadingFits(path: Option<string>, limit: nat, count: Counter)
    requires Modest(count) && limit >= 12 && !NoHeading(path, limit, count)
    ensures BoundedHeading(path, limit, count).Ok?
    ensures
      var prefix := BoundedHeading(path, limit, count).value;
      prefix != "" ==> count(prefix) <= limit / 3
  {
    hide Pieces, Nearest;
    if path.Some? && path.value != "" && count(path.value) > AtLeast3(limit / 3) {
      NearestEmptyExactlyWhen(path.value);
      FirstPieceFits(count, Nearest(path.value), AtLeast3(limit / 3));
    }
  }

  // ---------------------------------------------------------------- units never fail

  /** Every text that has to be split can be. */
  ghost predicate Splittable(spec: ChunkSpec, count: Counter) {
    forall s: string :: count(s) > spec.max ==> Pieces(s, spec.target, count).Ok?
  }

  lemma UnitsOfOk(text: string, start: nat, end: nat, spec: ChunkSpec, count: Counter)
    requires start <= end <= |text| && Splittable(spec, count)
    ensures UnitsOf(text, start, end, spec, count).Ok?
  {
  }

  lemma {:induction false} UnitsBetweenOk(text: string, cuts: seq<nat>, spec: ChunkSpec, count: Counter)
    requires SortedWithin(cuts, |text|) && Splittable(spec, count)
    ensures UnitsBetween(text, cuts, spec, count).Ok?
  {
    if |cuts| >= 2 {
      UnitsOfOk(text, cuts[0], cuts[1], spec, count);
      UnitsBetweenOk(text, cuts[1..], spec, count);
    }
  }

  lemma {:induction false} ParagraphsOk(text: string, bounds: seq<nat>, spec: ChunkSpec, count: Counter, sentences: Cuts)
    requires SortedWithin(bounds, |text|) && CutsTexts(sentences) && Splittable(spec, count)
    ensures ParagraphsUnits(text, bounds, spec, count, sentences).Ok?
  {
    hide Splittable;
    if |bounds| >= 2 {
      var start, end := bounds[0], bounds[1];
      assert SortedWithin(sentences(text[start..end]), end - start);
      UnitsOfOk(text, start, end, spec, count);
      UnitsBetweenOk(text, SentenceCuts(text, start, end, sentences), spec, count);
      ParagraphsOk(text, bounds[1..], spec, count, sentences);
    }
  }

  lemma ProseOk(text: string, spec: ChunkSpec, count: Counter, paragraphs: Cuts, sentences: Cuts)
    requires CutsTexts(paragraphs) && CutsTexts(sentences) && Splittable(spec, count)
    ensures ProseRanges(text, spec, count, paragraphs, sentences).Ok?
  {
    hide Splittable;
    assert SortedWithin(paragraphs(text), |text|);
    ParagraphsOk(text, Bounds(text, paragraphs), spec, count, sentences);
  }

  /** Under a heading the target is at least 3; without one it must hold single characters. */
  lemma InnerSplittable(e: Element, spec: ChunkSpec, count: Counter)
    requires Modest(count) && spec.max >= 12 && !NoHeading(e.meta.sectionPath, spec.max, count)
    requires TargetHoldsCharacters(spec.target, spec.max, count)
    ensures Reserve(spec, e.meta.sectionPath, count).Ok?
    ensures Splittable(Reserve(spec, e.meta.sectionPath, count).value, count)
    ensures Reserve(spec, e.meta.sectionPath, count).value.max >= 3
  {
    HeadingFits(e.meta.sectionPath, spec.max, count);
    var inner := Reserve(spec, e.meta.sectionPath, count).value;
    forall s: string | count(s) > inner.max ensures Pieces(s, inner.target, count).Ok? {
      if BoundedHeading(e.meta.sectionPath, spec.max, count).value != "" {
        CharactersFit(count, s, inner.target);
      } else {
        assert forall c: char :: count([c]) <= inner.target;
        SmallCharactersSplit(s, inner.target, count);
      }
    }
  }

  // ---------------------------------------------------------------- elements and their records

  function PartsOr(parts: seq<string>, text: string): seq<string> {
    if parts == [] then [text] else parts
  }

  /** The parts of a table element, each of them short enough to be left whole by the last split. */
  ghost predicate TableFits(e: Element, spec: ChunkSpec, t: Tools)
    requires t.Valid() && spec.target <= spec.max
  {
    match Reserve(spec, e.meta.sectionPath, t.count)
    case Err(_) => false
    case Ok(inner) =>
      ReserveKeepsOrder(spec, e.meta.sectionPath, t.count);
      PartsOf(e, inner, t).Ok? && PartsWhole(e, PartsOr(PartsOf(e, inner, t).value.parts, e.text), spec.max, t)
  }

  predicate PartsWhole(e: Element, parts: seq<string>, limit: nat, t: Tools) {
    var prefix := BoundedHeading(e.meta.sectionPath, limit, t.count);
    prefix.Ok? && forall part :: part in parts && !Dropped(e, part, t) ==> t.count(part) <= BodyBudget(prefix.value, limit, t.count)
  }

  /** What can be said of an element before its chunks are made. */
  ghost predicate ElementFits(e: Element, spec: ChunkSpec, t: Tools)
    requires t.Valid() && spec.target <= spec.max
  {
    Omitted(e) || (!NoHeading(e.meta.sectionPath, spec.max, t.count) && (e.modality == Table ==> TableFits(e, spec, t)))
  }

  /** The last split can handle the record, and leaves it whole when it is of a table. */
  predicate RecordFits(r: Record, limit: nat, count: Counter) {
    var prefix := BoundedHeading(r.sectionPath, limit, count);
    && !NoHeading(r.sectionPath, limit, count)
    && (r.modality == Table ==> prefix.Ok? && count(Body(r.text, prefix.value)) <= BodyBudget(prefix.value, limit, count))
  }

  predicate RecordsFit(records: seq<Record>, limit: nat, count: Counter) {
    forall r :: r in records ==> RecordFits(r, limit, count)
  }

  lemma PartsOk(e: Element, spec: ChunkSpec, inner: ChunkSpec, t: Tools)
    requires t.Valid() && Modest(t.count) && spec.max >= 12 && spec.target <= spec.max && e.modality != Table
    requires TargetHoldsCharacters(spec.target, spec.max, t.count) && Reserve(spec, e.meta.sectionPath, t.count) == Ok(inner)
    requires !NoHeading(e.meta.sectionPath, spec.max, t.count)
    ensures inner.target <= inner.max && PartsOf(e, inner, t).Ok?
  {
    hide ProseRanges, Pieces, Splittable, BoundedHeading, Reserve;
    InnerSplittable(e, spec, t.count);
    ReserveKeepsOrder(spec, e.meta.sectionPath, t.count);
    CharactersFit(t.count, e.text, inner.max);
    ProseOk(e.text, inner, t.count, t.paragraphs, t.sentences);
  }

  lemma ReserveOk(spec: ChunkSpec, path: Option<string>, count: Counter)
    ensures Reserve(spec, path, count).Ok? <==> BoundedHeading(path, spec.max, count).Ok?
    ensures NoHeading(path, spec.max, count) ==> Reserve(spec, path, count) == Err(EmptyHeading)
  {
    hide BoundedHeading, NoHeading;
    EmptyHeadingExactlyWhen(path, spec.max, count);
  }

  lemma RecordOfFits(e: Element, part: string, range: Option<Range>, prefix: string, limit: nat, count: Counter)
    requires BoundedHeading(e.meta.sectionPath, limit, count) == Ok(prefix) && !NoHeading(e.meta.sectionPath, limit, count)
    ensures RecordFits(RecordOf(e, part, range, prefix), limit, count)
       <==> (e.modality == Table ==> count(part) <= BodyBudget(prefix, limit, count))
  {
    hide BoundedHeading, NoHeading, BodyBudget, Body, Prefixed;
    BodyOfPrefixed(prefix, part);
  }

  lemma {:induction false} PartRecordsFit(e: Element, parts: seq<string>, ranges: seq<Range>, k: nat, prefix: string, limit: nat, t: Tools)
    requires k <= |parts| && (ranges == [] || |ranges| == |parts|)
    requires BoundedHeading(e.meta.sectionPath, limit, t.count) == Ok(prefix) && !NoHeading(e.meta.sectionPath, limit, t.count)
    ensures RecordsFit(PartRecords(e, parts, ranges, k, prefix, t), limit, t.count)
       <==> (e.modality == Table ==> PartsWhole(e, parts[k..], limit, t))
    decreases |parts| - k
  {
    hide BoundedHeading, NoHeading, BodyBudget, RecordOf, Dropped, RecordFits;
    if k < |parts| {
      var rest := PartRecords(e, parts, ranges, k + 1, prefix, t);
      var range := if ranges != [] then Some(ranges[k]) else None;
      PartRecordsFit(e, parts, ranges, k + 1, prefix, limit, t);
      RecordOfFits(e, parts[k], range, prefix, limit, t.count);
      assert parts[k..] == [parts[k]] + parts[k + 1..];
      RecordsFitFirst(RecordOf(e, parts[k], range, prefix), rest, limit, t.count);
    }
  }

  lemma RecordsFitFirst(r: Record, rest: seq<Record>, limit: nat, count: Counter)
    ensures RecordsFit([r] + rest, limit, count) <==> RecordFits(r, limit, count) && RecordsFit(rest, limit, count)
  {
    hide RecordFits;
    if RecordsFit([r] + rest, limit, count) {
      assert r in [r] + rest;
      forall x | x in rest ensures RecordFits(x, limit, count) {
        assert x in [r] + rest;
      }
    }
  }

  /** An element that is not left out has its records, which the last split can handle, exactly when it fits. */
  lemma ElementExactlyWhen(e: Element, spec: ChunkSpec, t: Tools)
    requires t.Valid() && Modest(t.count) && spec.max >= 12 && spec.target <= spec.max
    requires TargetHoldsCharacters(spec.target, spec.max, t.count)
    ensures ElementRecords(e, spec, t).Ok? && RecordsFit(ElementRecords(e, spec, t).value, spec.max, t.count) <==> ElementFits(e, spec, t)
  {
    hide PartsOf, PartRecords, BoundedHeading, NoHeading, PartsWhole, Reserve, Modest, TargetHoldsCharacters, RecordFits;
    var path := e.meta.sectionPath;
    ReserveOk(spec, path, t.count);
    if !Omitted(e) && !NoHeading(path, spec.max, t.count) {
      HeadingFits(path, spec.max, t.count);
      ReserveKeepsOrder(spec, path, t.count);
      var inner := Reserve(spec, path, t.count).value;
      if e.modality != Table {
        PartsOk(e, spec, inner, t);
      }
      if PartsOf(e, inner, t).Ok? {
        var split := PartsOf(e, inner, t).value;
        var prefix := BoundedHeading(path, spec.max, t.count).value;
        PartRecordsFit(e, PartsOr(split.parts, e.text), if split.parts == [] then [] else split.ranges, 0, prefix, spec.max, t);
        assert PartsOr(split.parts, e.text)[0..] == PartsOr(split.parts, e.text);
      }
    }
  }

  // ---------------------------------------------------------------- the last split never fails

  /** The heading, the blank line and a fragment within its budget stay within the limit. */
  lemma FragmentFits(prefix: string, fragment: string, limit: nat, count: Counter)
    requires Modest(count) && limit >= 12 && (prefix != "" ==> count(prefix) <= limit / 3)
    requires count(fragment) <= BodyBudget(prefix, limit, count)
    ensures count(Prefixed(prefix, fragment)) <= limit
  {
    if prefix != "" {
      assert count(prefix + "\n\n") <= count(prefix) + count("\n\n");
      assert count((prefix + "\n\n") + fragment) <= count(prefix + "\n\n") + count(fragment);
    }
  }

  lemma {:induction false} FragmentsOk(r: Record, prefix: string, body: string, fragments: seq<string>, offset: nat,
                                       ordinal: nat, limit: nat, count: Counter)
    requires Modest(count) && limit >= 12 && (prefix != "" ==> count(prefix) <= limit / 3)
    requires r.modality == Table ==> fragments == [] || fragments == [body]
    requires Fit(fragments, BodyBudget(prefix, limit, count), count)
    ensures FragmentChunks(r, prefix, body, fragments, offset, ordinal, count).Ok?
    ensures WithinLimit(FragmentChunks(r, prefix, body, fragments, offset, ordinal, count).value, limit)
    decreases |fragments|
  {
    hide Modest, BodyBudget;
    if fragments != [] {
      FragmentFits(prefix, fragments[0], limit, count);
      FragmentsOk(r, prefix, body, fragments[1..], offset + |fragments[0]|, ordinal + 1, limit, count);
    }
  }

  lemma RecordOk(r: Record, limit: nat, ordinal: nat, count: Counter)
    requires Modest(count) && limit >= 12 && RecordFits(r, limit, count)
    ensures RecordChunks(r, limit, ordinal, count).Ok? && WithinLimit(RecordChunks(r, limit, ordinal, count).value, limit)
  {
    hide FragmentChunks, BodyBudget, WithinLimit, BoundedHeading, NoHeading, PieceLength;
    HeadingFits(r.sectionPath, limit, count);
    var prefix := BoundedHeading(r.sectionPath, limit, count).value;
    var body, budget := Body(r.text, prefix), BodyBudget(prefix, limit, count);
    assert budget >= 3 by { BudgetAtLeast3(prefix, limit, count); }
    CharactersFit(count, body, budget);
    PiecesPartition(body, budget, count);
    FragmentsOk(r, prefix, body, Pieces(body, budget, count).value, 0, ordinal, limit, count);
  }

  lemma BudgetAtLeast3(prefix: string, limit: nat, count: Counter)
    ensures BodyBudget(prefix, limit, count) >= 3
  {
  }

  /** A table record that is too long for one chunk stops the chunking, whatever the counter. */
  lemma LongTableStops(r: Record, prefix: string, limit: nat, ordinal: nat, count: Counter)
    requires BoundedHeading(r.sectionPath, limit, count) == Ok(prefix) && r.modality == Table
    requires count(Body(r.text, prefix)) > BodyBudget(prefix, limit, count) && Body(r.text, prefix) != ""
    ensures
      var body, budget := Body(r.text, prefix), BodyBudget(prefix, limit, count);
      RecordChunks(r, limit, ordinal, count) == Err(if Pieces(body, budget, count).Ok? then TableSplit else CharacterExceedsBudget)
  {
    hide BoundedHeading, BodyBudget, Body;
    var body, budget := Body(r.text, prefix), BodyBudget(prefix, limit, count);
    PiecesErrors(body, budget, count);
    if Pieces(body, budget, count).Ok? {
      var first := Pieces(body, budget, count).value[0];
      assert count(first) <= budget;
      assert first != body;
    }
  }

  /** A record gives its chunks exactly when the last split can handle it. */
  lemma RecordExactlyWhen(r: Record, limit: nat, ordinal: nat, count: Counter)
    requires Modest(count) && limit >= 12
    ensures RecordChunks(r, limit, ordinal, count).Ok? <==> RecordFits(r, limit, count)
    ensures RecordChunks(r, limit, ordinal, count).Ok? ==> WithinLimit(RecordChunks(r, limit, ordinal, count).value, limit)
  {
    hide RecordChunks, BodyBudget, Body, NoHeading, WithinLimit, Modest;
    EmptyHeadingExactlyWhen(r.sectionPath, limit, count);
    if RecordFits(r, limit, count) {
      RecordOk(r, limit, ordinal, count);
    } else if NoHeading(r.sectionPath, limit, count) {
      assert RecordChunks(r, limit, ordinal, count).Err? by { HeadlessStops(r, limit, ordinal, count); }
    } else {
      HeadingFits(r.sectionPath, limit, count);
      var prefix := BoundedHeading(r.sectionPath, limit, count).value;
      EmptyFits(prefix, limit, count);
      LongTableStops(r, prefix, limit, ordinal, count);
    }
  }

  lemma HeadlessStops(r: Record, limit: nat, ordinal: nat, count: Counter)
    requires BoundedHeading(r.sectionPath, limit, count).Err?
    ensures RecordChunks(r, limit, ordinal, count).Err?
  {
  }

  lemma EmptyFits(prefix: string, limit: nat, count: Counter)
    requires Modest(count)
    ensures count("") <= BodyBudget(prefix, limit, count)
  {
    assert "a"[..0] == "" && count("a"[..0]) <= count("a") && "a" == ['a'];
  }

  lemma {:induction false} ChunksExactlyWhenFit(records: seq<Record>, limit: nat, ordinal: nat, count: Counter)
    requires Modest(count) && limit >= 12
    ensures AllChunks(records, limit, ordinal, count).Ok? <==> RecordsFit(records, limit, count)
    ensures AllChunks(records, limit, ordinal, count).Ok? ==> WithinLimit(AllChunks(records, limit, ordinal, count).value, limit)
  {
    hide Modest, RecordChunks, RecordFits;
    if records != [] {
      var r, rest := records[0], records[1..];
      RecordExactlyWhen(r, limit, ordinal, count);
      assert records == [r] + rest;
      RecordsFitFirst(r, rest, limit, count);
      if RecordChunks(r, limit, ordinal, count).Ok? {
        ChunksExactlyWhenFit(rest, limit, ordinal + |RecordChunks(r, limit, ordinal, count).value|, count);
      }
    }
  }

  lemma RecordsFitConcat(a: seq<Record>, b: seq<Record>, limit: nat, count: Counter)
    ensures RecordsFit(a + b, limit, count) <==> RecordsFit(a, limit, count) && RecordsFit(b, limit, count)
  {
    hide RecordFits;
    if RecordsFit(a + b, limit, count) {
      forall r | r in a || r in b ensures RecordFits(r, limit, count) {
        assert r in a + b;
      }
    }
  }

  ghost predicate AllFit(elements: seq<Element>, spec: ChunkSpec, t: Tools)
    requires t.Valid() && spec.target <= spec.max
  {
    forall e :: e in elements ==> ElementFits(e, spec, t)
  }

  lemma {:induction false} RecordsExactlyWhen(elements: seq<Element>, spec: ChunkSpec, t: Tools)
    requires t.Valid() && Modest(t.count) && spec.max >= 12 && spec.target <= spec.max
    requires TargetHoldsCharacters(spec.target, spec.max, t.count)
    ensures AllRecords(elements, spec, t).Ok? && RecordsFit(AllRecords(elements, spec, t).value, spec.max, t.count)
       <==> AllFit(elements, spec, t)
  {
    hide Modest, ElementRecords, TargetHoldsCharacters, ElementFits, RecordFits;
    if elements != [] {
      var e, rest := elements[0], elements[1..];
      ElementExactlyWhen(e, spec, t);
      RecordsExactlyWhen(rest, spec, t);
      assert AllFit(elements, spec, t) <==> ElementFits(e, spec, t) && AllFit(rest, spec, t) by {
        assert elements == [e] + rest;
      }
      if ElementRecords(e, spec, t).Ok? && AllRecords(rest, spec, t).Ok? {
        RecordsFitConcat(ElementRecords(e, spec, t).value, AllRecords(rest, spec, t).value, spec.max, t.count);
      }
    }
  }

  // ---------------------------------------------------------------- joined elements

  lemma RunFits(run: seq<Element>, spec: ChunkSpec, t: Tools, e: Element)
    requires t.Valid() && spec.target <= spec.max && run != [] && TextRuns.Chain(run) && e in run
    ensures ElementFits(JoinRun(run), spec, t) <==> ElementFits(e, spec, t)
  {
    hide NoHeading, TableFits;
    var k :| 0 <= k < |run| && run[k] == e;
    if |run| > 1 {
      RunContext(run, 0);
      RunContext(run, k);
    }
  }

  lemma JoinedFit(elements: seq<Element>, spec: ChunkSpec, t: Tools)
    requires t.Valid() && spec.target <= spec.max
    ensures AllFit(JoinTexts(elements), spec, t) <==> AllFit(elements, spec, t)
  {
    hide ElementFits, JoinRun, TextRuns.Chain;
    RunsNonempty(elements);
    var joined := JoinTexts(elements);
    if AllFit(elements, spec, t) {
      forall e | e in joined ensures ElementFits(e, spec, t) {
        var g := RunOfElement(elements, e);
        RunsAreChains(elements, g);
        RunFits(Runs(elements)[g], spec, t, Runs(elements)[g][0]);
      }
    }
    if AllFit(joined, spec, t) {
      forall e | e in elements ensures ElementFits(e, spec, t) {
        var g := InSomeRun(elements, e);
        RunsAreChains(elements, g);
        RunFits(Runs(elements)[g], spec, t, e);
        assert joined[g] in joined;
      }
    }
  }

  lemma BoundedHolds(spec: ChunkSpec, embedMax: nat, count: Counter)
    requires Modest(count) && Limit(spec, embedMax) >= 12 && TargetHoldsCharacters(spec.target, Limit(spec, embedMax), count)
    ensures
      var bounded := Bounded(spec, embedMax);
      bounded.target <= bounded.max == Limit(spec, embedMax) && TargetHoldsCharacters(bounded.target, bounded.max, count)
  {
  }

  /** Exactly when chunking succeeds, tables included: with single characters that fit the target, or no text above the
      limit, it fails at nothing but a section path that is too long and ends with its separator, a table whose splitter
      fails, or a part of a table that does not fit one chunk. All chunks are then within the limit, headings included. */
  lemma ChunksExactlyWhen(elements: seq<Element>, spec: ChunkSpec, embedMax: nat, t: Tools)
    requires t.Valid() && Modest(t.count) && Limit(spec, embedMax) >= 12 && spec.target > 0
    requires TargetHoldsCharacters(spec.target, Limit(spec, embedMax), t.count)
    ensures ChunksOf(elements, spec, embedMax, t).Ok? <==> AllFit(elements, Bounded(spec, embedMax), t)
    ensures ChunksOf(elements, spec, embedMax, t).Ok? ==>
              WithinLimit(ChunksOf(elements, spec, embedMax, t).value, Limit(spec, embedMax))
  {
    hide JoinTexts, AllRecords, AllChunks, AllFit, RecordsFit, Modest, WithinLimit;
    var bounded, joined := Bounded(spec, embedMax), JoinTexts(elements);
    BoundedHolds(spec, embedMax, t.count);
    JoinedFit(elements, bounded, t);
    RecordsExactlyWhen(joined, bounded, t);
    if AllRecords(joined, bounded, t).Ok? {
      ChunksExactlyWhenFit(AllRecords(joined, bounded, t).value, bounded.max, 0, t.count);
    }
  }

  /** Outside tables chunking never fails, and every chunk, heading included, is within the limit. */
  lemma NeverRaises(elements: seq<Element>, spec: ChunkSpec, embedMax: nat, t: Tools)
    requires t.Valid() && Modest(t.count) && Limit(spec, embedMax) >= 12 && spec.target > 0
    requires AllPlain(elements, Limit(spec, embedMax), t.count)
    requires TargetHoldsCharacters(spec.target, Limit(spec, embedMax), t.count)
    ensures ChunksOf(elements, spec, embedMax, t).Ok?
    ensures WithinLimit(ChunksOf(elements, spec, embedMax, t).value, Limit(spec, embedMax))
  {
    hide ChunksOf, Modest, NoHeading, WithinLimit;
    ChunksExactlyWhen(elements, spec, embedMax, t);
  }

  // ---------------------------------------------------------------- what the numbers of a chunk say

  /** Chunks are numbered in order, and their token counts are those of their whole text. */
  predicate Numbered(chunks: seq<Chunk>, from: nat, count: Counter) {
    forall k :: 0 <= k < |chunks| ==> chunks[k].ordinal == from + k && chunks[k].tokens == count(chunks[k].text)
  }

  lemma {:induction false} FragmentsNumbered(r: Record, prefix: string, body: string, fragments: seq<string>, offset: nat,
                                             ordinal: nat, count: Counter)
    requires FragmentChunks(r, prefix, body, fragments, offset, ordinal, count).Ok?
    ensures Numbered(FragmentChunks(r, prefix, body, fragments, offset, ordinal, count).value, ordinal, count)
    decreases |fragments|
  {
    if fragments != [] {
      FragmentsNumbered(r, prefix, body, fragments[1..], offset + |fragments[0]|, ordinal + 1, count);
    }
  }

  lemma {:induction false} AllNumbered(records: seq<Record>, limit: nat, ordinal: nat, count: Counter)
    requires AllChunks(records, limit, ordinal, count).Ok?
    ensures Numbered(AllChunks(records, limit, ordinal, count).value, ordinal, count)
  {
    hide FragmentChunks, Pieces, BoundedHeading;
    if records != [] {
      var r := records[0];
      var prefix := BoundedHeading(r.sectionPath, limit, count).value;
      var body := Body(r.text, prefix);
      FragmentsNumbered(r, prefix, body, Pieces(body, BodyBudget(prefix, limit, count), count).value, 0, ordinal, count);
      AllNumbered(records[1..], limit, ordinal + |RecordChunks(r, limit, ordinal, count).value|, count);
    }
  }

  /** Whenever chunking returns, for any counter: ordinals count up from 0, and no text is above the limit. */
  lemma ChunksWithinLimit(elements: seq<Element>, spec: ChunkSpec, embedMax: nat, t: Tools)
    requires t.Valid() && ChunksOf(elements, spec, embedMax, t).Ok?
    ensures
      var chunks := ChunksOf(elements, spec, embedMax, t).value;
      forall k :: 0 <= k < |chunks| ==> chunks[k].ordinal == k && t.count(chunks[k].text) <= Limit(spec, embedMax)
  {
    hide JoinTexts, AllRecords, AllChunks;
    AllNumbered(AllRecords(JoinTexts(elements), Bounded(spec, embedMax), t).value, Limit(spec, embedMax), 0, t.count);
  }
}

/** The inputs on which chunking fails: section paths without a nearest heading, and characters above the target. */
module ChunkFailures {
  import opened ChunkBudgets
  import opened ChunkElements
  import opened ChunkText
  import opened ChunkTrace
  import opened HardSplit
  import opened Headings
  import opened Prelude
  import opened ProsePacking
  import opened ProseUnits
  import opened PythonText
  import opened TextRuns
  import Blocks
  import SourceSpans

  // ---------------------------------------------------------------- paths without a nearest heading

  lemma {:induction false} UnitsErrors(text: string, cuts: seq<nat>, spec: ChunkSpec, count: Counter)
    requires SortedWithin(cuts, |text|)
    ensures UnitsBetween(text, cuts, spec, count) != Err(EmptyHeading)
  {
    hide Pieces;
    if |cuts| >= 2 {
      StretchErrors(text, cuts[0], cuts[1], spec, count);
      UnitsErrors(text, cuts[1..], spec, count);
    }
  }

  lemma StretchErrors(text: string, start: nat, end: nat, spec: ChunkSpec, count: Counter)
    requires start <= end <= |text|
    ensures UnitsOf(text, start, end, spec, count) != Err(EmptyHeading)
  {
    forall s: string ensures Pieces(s, spec.target, count) != Err(EmptyHeading) {
      PiecesErrors(s, spec.target, count);
    }
  }

  lemma {:induction false} ParagraphsErrors(text: string, bounds: seq<nat>, spec: ChunkSpec, count: Counter, sentences: Cuts)
    requires SortedWithin(bounds, |text|) && CutsTexts(sentences)
    ensures ParagraphsUnits(text, bounds, spec, count, sentences) != Err(EmptyHeading)
  {
    if |bounds| >= 2 {
      var start, end := bounds[0], bounds[1];
      assert SortedWithin(sentences(text[start..end]), end - start);
      StretchErrors(text, start, end, spec, count);
      UnitsErrors(text, SentenceCuts(text, start, end, sentences), spec, count);
      ParagraphsErrors(text, bounds[1..], spec, count, sentences);
    }
  }

  /** The table splitter has its own errors. */
  ghost predicate TablesHaveNoHeadings(t: Tools) {
    forall s: string, spec: ChunkSpec :: t.tables(s, spec) != Err(EmptyHeading)
  }

  lemma ProseErrors(text: string, spec: ChunkSpec, t: Tools)
    requires t.Valid()
    ensures ProseRanges(text, spec, t.count, t.paragraphs, t.sentences) != Err(EmptyHeading)
  {
    assert SortedWithin(t.paragraphs(text), |text|);
    ParagraphsErrors(text, Bounds(text, t.paragraphs), spec, t.count, t.sentences);
  }

  lemma PartsErrors(e: Element, spec: ChunkSpec, t: Tools)
    requires t.Valid() && spec.target <= spec.max && TablesHaveNoHeadings(t)
    ensures PartsOf(e, spec, t) != Err(EmptyHeading)
  {
    hide ProseRanges, Pieces;
    PiecesErrors(e.text, spec.max, t.count);
    ProseErrors(e.text, spec, t);
  }

  /** The element is not left out, and its path has no heading to take. */
  predicate Headless(e: Element, limit: nat, count: Counter) {
    !Omitted(e) && NoHeading(e.meta.sectionPath, limit, count)
  }

  lemma ElementErrors(e: Element, spec: ChunkSpec, t: Tools)
    requires t.Valid() && spec.target <= spec.max && TablesHaveNoHeadings(t)
    ensures ElementRecords(e, spec, t) == Err(EmptyHeading) <==> Headless(e, spec.max, t.count)
  {
    hide PartsOf, PartRecords, BoundedHeading, NoHeading;
    var path := e.meta.sectionPath;
    ReserveOk(spec, path, t.count);
    EmptyHeadingExactlyWhen(path, spec.max, t.count);
    if Reserve(spec, path, t.count).Ok? {
      ReserveKeepsOrder(spec, path, t.count);
      PartsErrors(e, Reserve(spec, path, t.count).value, t);
    }
  }

  /** Some element has no heading to take, and no element before it fails. */
  ghost predicate ReachesHeadless(elements: seq<Element>, spec: ChunkSpec, t: Tools)
    requires t.Valid() && spec.target <= spec.max
  {
    exists k :: 0 <= k < |elements| && Headless(elements[k], spec.max, t.count) && AllRecords(elements[..k], spec, t).Ok?
  }

  lemma {:induction false} RecordsErrors(elements: seq<Element>, spec: ChunkSpec, t: Tools)
    requires t.Valid() && spec.target <= spec.max && TablesHaveNoHeadings(t)
    ensures AllRecords(elements, spec, t) == Err(EmptyHeading) <==> ReachesHeadless(elements, spec, t)
  {
    hide ElementRecords, Headless, TablesHaveNoHeadings;
    if elements != [] {
      var e, rest := elements[0], elements[1..];
      ElementErrors(e, spec, t);
      RecordsErrors(rest, spec, t);
      forall k | 0 < k <= |elements|
        ensures AllRecords(elements[..k], spec, t).Ok? <==> ElementRecords(e, spec, t).Ok? && AllRecords(rest[..k - 1], spec, t).Ok?
      {
        assert elements[..k][0] == e && elements[..k][1..] == rest[..k - 1];
      }
      if ReachesHeadless(elements, spec, t) {
        var k :| 0 <= k < |elements| && Headless(elements[k], spec.max, t.count) && AllRecords(elements[..k], spec, t).Ok?;
        if k > 0 {
          assert rest[k - 1] == elements[k];
        }
      }
      if ElementRecords(e, spec, t).Ok? && ReachesHeadless(rest, spec, t) {
        var k :| 0 <= k < |rest| && Headless(rest[k], spec.max, t.count) && AllRecords(rest[..k], spec, t).Ok?;
        assert elements[k + 1] == rest[k] && AllRecords(elements[..k + 1], spec, t).Ok?;
      }
      if Headless(e, spec.max, t.count) {
        assert elements[..0] == [] && AllRecords([], spec, t).Ok?;
      }
    }
  }

  lemma FragmentErrors(r: Record, prefix: string, body: string, fragments: seq<string>, offset: nat, ordinal: nat, count: Counter)
    ensures FragmentChunks(r, prefix, body, fragments, offset, ordinal, count) != Err(EmptyHeading)
    decreases |fragments|
  {
    if fragments != [] {
      FragmentErrors(r, prefix, body, fragments[1..], offset + |fragments[0]|, ordinal + 1, count);
    }
  }

  lemma RecordErrors(r: Record, limit: nat, ordinal: nat, count: Counter)
    requires !NoHeading(r.sectionPath, limit, count)
    ensures RecordChunks(r, limit, ordinal, count) != Err(EmptyHeading)
  {
    hide BoundedHeading, NoHeading, Pieces, FragmentChunks, Body, BodyBudget;
    EmptyHeadingExactlyWhen(r.sectionPath, limit, count);
    if BoundedHeading(r.sectionPath, limit, count).Ok? {
      var prefix := BoundedHeading(r.sectionPath, limit, count).value;
      var body := Body(r.text, prefix);
      PiecesErrors(body, BodyBudget(prefix, limit, count), count);
      if Pieces(body, BodyBudget(prefix, limit, count), count).Ok? {
        FragmentErrors(r, prefix, body, Pieces(body, BodyBudget(prefix, limit, count), count).value, 0, ordinal, count);
      }
    }
  }

  lemma {:induction false} ChunksErrors(records: seq<Record>, limit: nat, ordinal: nat, count: Counter)
    requires forall r :: r in records ==> !NoHeading(r.sectionPath, limit, count)
    ensures AllChunks(records, limit, ordinal, count) != Err(EmptyHeading)
  {
    hide RecordChunks, NoHeading;
    if records != [] {
      RecordErrors(records[0], limit, ordinal, count);
      if RecordChunks(records[0], limit, ordinal, count).Ok? {
        ChunksErrors(records[1..], limit, ordinal + |RecordChunks(records[0], limit, ordinal, count).value|, count);
      }
    }
  }

  lemma RecordsHaveHeadings(elements: seq<Element>, spec: ChunkSpec, t: Tools)
    requires t.Valid() && spec.target <= spec.max && AllRecords(elements, spec, t).Ok?
    ensures forall r :: r in AllRecords(elements, spec, t).value ==> !NoHeading(r.sectionPath, spec.max, t.count)
  {
    hide AllRecords, ElementRecords, NoHeading;
    forall r | r in AllRecords(elements, spec, t).value ensures !NoHeading(r.sectionPath, spec.max, t.count) {
      var e := AllRecordsFrom(elements, spec, t, r);
      ElementRecordsKind(e, spec, t, r);
      RecordHasHeading(e, spec, t, r);
    }
  }

  lemma RecordHasHeading(e: Element, spec: ChunkSpec, t: Tools, r: Record)
    requires t.Valid() && spec.target <= spec.max && ElementRecords(e, spec, t).Ok? && r in ElementRecords(e, spec, t).value
    ensures !NoHeading(e.meta.sectionPath, spec.max, t.count)
  {
    hide PartsOf, PartRecords, Reserve, NoHeading;
    ReserveOk(spec, e.meta.sectionPath, t.count);
  }

  /** For any counter: chunking asks for the first of no pieces exactly when it comes to an element that is not left out
      and whose section path is too long as a whole and ends with its separator. */
  lemma EmptyHeadingRaisedExactlyWhen(elements: seq<Element>, spec: ChunkSpec, embedMax: nat, t: Tools)
    requires t.Valid() && TablesHaveNoHeadings(t)
    ensures ChunksOf(elements, spec, embedMax, t) == Err(EmptyHeading)
       <==> Limit(spec, embedMax) >= 3 && spec.target > 0 && ReachesHeadless(JoinTexts(elements), Bounded(spec, embedMax), t)
  {
    hide JoinTexts, AllRecords, AllChunks, ReachesHeadless, TablesHaveNoHeadings, NoHeading;
    var bounded, joined := Bounded(spec, embedMax), JoinTexts(elements);
    RecordsErrors(joined, bounded, t);
    if AllRecords(joined, bounded, t).Ok? {
      RecordsHaveHeadings(joined, bounded, t);
      ChunksErrors(AllRecords(joined, bounded, t).value, bounded.max, 0, t.count);
    }
  }

  /** Outside tables, and with a target that holds single characters, this is all that can go wrong: chunking fails exactly
      when one of the elements has no heading to take. */
  lemma HeadingsExactlyWhen(elements: seq<Element>, spec: ChunkSpec, embedMax: nat, t: Tools)
    requires t.Valid() && Modest(t.count) && Limit(spec, embedMax) >= 12 && spec.target > 0
    requires TargetHoldsCharacters(spec.target, Limit(spec, embedMax), t.count)
    requires forall e :: e in elements ==> e.modality != Table
    ensures ChunksOf(elements, spec, embedMax, t).Err? <==> exists e :: e in elements && Headless(e, Limit(spec, embedMax), t.count)
  {
    hide ChunksOf, Modest, NoHeading, Omitted, TargetHoldsCharacters;
    ChunksExactlyWhen(elements, spec, embedMax, t);
  }

  /** An element under a path of one long heading and a separator that nothing follows. */
  function HeadlessElement(): Element {
    var e := PlainElement("a");
    e.(meta := e.meta.(sectionPath := Some("Contract > ")))
  }

  lemma HeadlessElementRaises()
    ensures
      var e, spec := HeadlessElement(), ChunkSpec(12, 0, 12, 0);
      && Modest(ByteCount) && PlainTools(ByteCount).Valid() && JoinTexts([e]) == [e]
      && ChunksOf([e], spec, 12, PlainTools(ByteCount)) == Err(EmptyHeading)
  {
    hide *;
    var e, spec, t := HeadlessElement(), ChunkSpec(12, 0, 12, 0), PlainTools(ByteCount);
    ByteCountIsModest();
    PlainToolsValid(ByteCount);
    JoinedOne(e);
    HeadlessElementIs();
    FirstIsReached(e, spec, t);
    EmptyHeadingRaisedExactlyWhen([e], spec, 12, t);
  }

  lemma HeadlessElementIs()
    ensures Headless(HeadlessElement(), 12, ByteCount)
    ensures var spec := ChunkSpec(12, 0, 12, 0); Bounded(spec, 12) == spec && Limit(spec, 12) == 12
    ensures PlainTools(ByteCount).count == ByteCount && TablesHaveNoHeadings(PlainTools(ByteCount))
  {
    hide ByteCount;
    ByteCountAtLeast("Contract > ");
    assert "Contract > "[8..] == " > " && Strip("a") == "a";
  }

  lemma FirstIsReached(e: Element, spec: ChunkSpec, t: Tools)
    requires t.Valid() && spec.target <= spec.max && Headless(e, spec.max, t.count)
    ensures ReachesHeadless([e], spec, t)
  {
    hide Headless, AllRecords;
    NoRecords(spec, t);
    assert [e][0] == e && [e][..0] == [];
  }

  /** The block splitter never makes such a path: its elements always have a heading to take, at any limit. */
  lemma BlocksHaveHeadings(text: string, t: Blocks.LineTools, limit: nat, count: Counter)
    requires Blocks.HeadingsVisible(t)
    ensures forall b :: b in Blocks.BlocksFrom(SplitLines(text), 0, 0, [], 0, t) ==> !NoHeading(b.sectionPath, limit, count)
  {
    hide Blocks.BlocksFrom, SplitLines;
    Blocks.PathsEndInText(SplitLines(text), 0, 0, [], 0, t);
    forall b | b in Blocks.BlocksFrom(SplitLines(text), 0, 0, [], 0, t) ensures !NoHeading(b.sectionPath, limit, count) {
      assert b.sectionPath.Some? ==> Blocks.EndsInText(b.sectionPath.value);
    }
  }

  lemma NoRecords(spec: ChunkSpec, t: Tools)
    requires t.Valid() && spec.target <= spec.max
    ensures AllRecords([], spec, t) == Ok([])
  {
  }

  lemma {:induction false} ByteCountAtLeast(s: string)
    ensures ByteCount(s) >= |s|
  {
    if s != "" {
      ByteCountAtLeast(s[1..]);
    }
  }

  lemma JoinedOne(e: Element)
    ensures JoinTexts([e]) == [e]
  {
    hide JoinTexts;
    FirstRun([e], []);
    NothingJoined();
    assert [e] + [] == [e];
    assert [JoinRun([e])] + [] == [e];
  }

  // ---------------------------------------------------------------- characters above the target

  function PlainElement(text: string): Element {
    Element(text, Text, "text", "prose", 0,
            Meta(SourceSpans.Place(None, None, None, None), None, None, None, None, false, None, None, [], []))
  }

  function NoCuts(s: string): seq<nat> { [] }

  function PlainTools(count: Counter): Tools {
    Tools(count, NoCuts, NoCuts, s => false, (s, p) => Ok([]))
  }

  /** A text without outer whitespace, above the limit, that cannot be split to the target. */
  lemma UncutUnits(text: string, spec: ChunkSpec, count: Counter)
    requires text != "" && !IsSpace(text[0]) && !IsSpace(text[|text| - 1])
    requires spec.target <= spec.max < count(text) && Pieces(text, spec.target, count).Err?
    requires PlainTools(count).Valid()
    ensures AllUnits(text, spec, count, NoCuts, NoCuts).Err?
  {
    assert text[0..|text|] == text;
    var cuts := SentenceCuts(text, 0, |text|, NoCuts);
    assert cuts == [0, |text|] && Bounds(text, NoCuts) == [0, |text|];
    assert UnitsOf(text, 0, |text|, spec, count).Err?;
    assert UnitsBetween(text, cuts, spec, count).Err?;
    assert ParagraphUnits(text, 0, |text|, spec, count, NoCuts).Err?;
  }

  lemma PlainToolsValid(count: Counter)
    ensures PlainTools(count).Valid()
  {
  }

  lemma UncutElementRaises(text: string, spec: ChunkSpec, count: Counter)
    requires text != "" && !IsSpace(text[0]) && !IsSpace(text[|text| - 1])
    requires spec.target <= spec.max < count(text) && Pieces(text, spec.target, count).Err?
    requires PlainTools(count).Valid()
    ensures AllRecords([PlainElement(text)], spec, PlainTools(count)).Err?
  {
    hide Pieces, AllUnits;
    assert Reserve(spec, None, count) == Ok(spec);
    UncutUnits(text, spec, count);
    assert ElementRecords(PlainElement(text), spec, PlainTools(count)).Err?;
  }

  lemma UnsplittableTextRaises(text: string, spec: ChunkSpec, embedMax: nat, count: Counter)
    requires text != "" && !IsSpace(text[0]) && !IsSpace(text[|text| - 1])
    requires 0 < spec.target <= Limit(spec, embedMax) < count(text) && 3 <= Limit(spec, embedMax)
    requires Pieces(text, spec.target, count).Err?
    ensures PlainTools(count).Valid() && AllPlain([PlainElement(text)], Limit(spec, embedMax), count)
    ensures ChunksOf([PlainElement(text)], spec, embedMax, PlainTools(count)).Err?
  {
    hide Pieces, JoinTexts, AllRecords, AllChunks, PlainTools;
    PlainToolsValid(count);
    JoinedOne(PlainElement(text));
    UncutElementRaises(text, Bounded(spec, embedMax), count);
  }

  lemma NothingJoined()
    ensures JoinTexts([]) == []
  {
  }

  /** Longer texts do not count less than their suffixes. */
  ghost predicate SuffixMonotone(count: Counter) {
    forall a: string, b: string :: count(b) <= count(a + b)
  }

  /** A letter, a character above the target, and enough text to need a split. */
  function Obstacle(c: char, s: string): string {
    "a" + ([c] + (s + "a"))
  }

  lemma ObstacleHolds(c: char, s: string)
    ensures Obstacle(c, s)[..1] == "a" && Obstacle(c, s)[..2] == "a" + [c]
    ensures Obstacle(c, s) != "" && Obstacle(c, s)[0] == 'a' && Obstacle(c, s)[|Obstacle(c, s)| - 1] == 'a'
    ensures Obstacle(c, s)[1..] == [c] + (s + "a")
    ensures Obstacle(c, s)[1..][..1] == [c]
  {
  }

  lemma ObstacleCounts(c: char, s: string, count: Counter)
    requires PrefixMonotone(count) && SuffixMonotone(count)
    ensures count(Obstacle(c, s)) >= count(s) && count("a" + [c]) >= count([c])
    ensures count([c] + (s + "a")) >= count([c])
  {
    assert (s + "a")[..|s|] == s;
    assert count(s) <= count(s + "a");
    assert count(s + "a") <= count([c] + (s + "a"));
    assert count([c] + (s + "a")) <= count("a" + ([c] + (s + "a")));
    assert ([c] + (s + "a"))[..1] == [c];
  }

  /** The first piece ends before the character, and the character does not fit alone. */
  lemma ObstacleStops(c: char, s: string, target: nat, count: Counter)
    requires PrefixMonotone(count) && SuffixMonotone(count) && count([c]) > target && count(s) > target
    ensures Pieces(Obstacle(c, s), target, count).Err?
  {
    var text := Obstacle(c, s);
    ObstacleHolds(c, s);
    ObstacleCounts(c, s, count);
    PiecesAreLong(text, target, count);
    assert Longest(text, target, count) < 2;
    if Longest(text, target, count) == 1 {
      assert PieceLength(text, target, count) == 1;
      PiecesAreLong(text[1..], target, count);
      assert PieceLength(text[1..], target, count) == 0;
      assert Pieces(text[1..], target, count).Err?;
    }
  }

  /** Chunking of plain elements never fails, whatever the boundaries and the table splitter. */
  ghost predicate AlwaysChunks(spec: ChunkSpec, embedMax: nat, count: Counter) {
    forall elements: seq<Element>, t: Tools :: t.Valid() && t.count == count && AllPlain(elements, Limit(spec, embedMax), count) ==>
      ChunksOf(elements, spec, embedMax, t).Ok?
  }

  lemma ObstacleRaises(c: char, s: string, spec: ChunkSpec, embedMax: nat, count: Counter)
    requires Modest(count) && SuffixMonotone(count) && Limit(spec, embedMax) >= 12 && spec.target > 0
    requires count([c]) > spec.target && count(s) > Limit(spec, embedMax)
    ensures !AlwaysChunks(spec, embedMax, count)
  {
    hide ChunksOf, Pieces, Obstacle;
    assert count([c]) <= 3;
    ObstacleHolds(c, s);
    ObstacleCounts(c, s, count);
    ObstacleStops(c, s, spec.target, count);
    UnsplittableTextRaises(Obstacle(c, s), spec, embedMax, count);
  }

  /** Exactly when: for a positive target and a limit of at least 12, chunking of plain elements never fails if and only
      if single characters fit the target or no text exceeds the limit. */
  lemma NeverRaisesExactlyWhen(spec: ChunkSpec, embedMax: nat, count: Counter)
    requires Modest(count) && SuffixMonotone(count) && Limit(spec, embedMax) >= 12 && spec.target > 0
    ensures AlwaysChunks(spec, embedMax, count) <==> TargetHoldsCharacters(spec.target, Limit(spec, embedMax), count)
  {
    hide ChunksOf, AllPlain, Pieces;
    if TargetHoldsCharacters(spec.target, Limit(spec, embedMax), count) {
      forall elements: seq<Element>, t: Tools | t.Valid() && t.count == count && AllPlain(elements, Limit(spec, embedMax), count)
        ensures ChunksOf(elements, spec, embedMax, t).Ok?
      {
        NeverRaises(elements, spec, embedMax, t);
      }
    } else {
      var c: char :| count([c]) > spec.target;
      var s: string :| count(s) > Limit(spec, embedMax);
      ObstacleRaises(c, s, spec, embedMax, count);
    }
  }

  /** A counter like that of a byte tokenizer: line feeds count 1, all other characters 3. */
  function ByteCount(s: string): nat {
    if s == "" then 0 else (if s[0] == '\n' then 1 else 3) + ByteCount(s[1..])
  }

  lemma {:induction false} ByteCountAdds(a: string, b: string)
    ensures ByteCount(a + b) == ByteCount(a) + ByteCount(b)
  {
    if a == "" {
      assert a + b == b;
    } else {
      assert (a + b)[1..] == a[1..] + b;
      ByteCountAdds(a[1..], b);
    }
  }

  lemma ByteCountOfSmall()
    ensures (forall c: char :: ByteCount([c]) <= 3) && ByteCount("\n\n") <= 2
  {
    forall c: char ensures ByteCount([c]) <= 3 {
      assert [c][1..] == "";
    }
    assert "\n\n"[1..] == "\n" && "\n"[1..] == "";
  }

  lemma ByteCountIsOrdered()
    ensures PrefixMonotone(ByteCount) && SuffixMonotone(ByteCount) && Subadditive(ByteCount)
  {
    hide ByteCount;
    forall a: string, b: string ensures ByteCount(a + b) == ByteCount(a) + ByteCount(b) {
      ByteCountAdds(a, b);
    }
    forall s: string, n: nat | n <= |s| ensures ByteCount(s[..n]) <= ByteCount(s) {
      assert s[..n] + s[n..] == s;
    }
  }

  lemma ByteCountIsModest()
    ensures Modest(ByteCount) && SuffixMonotone(ByteCount)
  {
    hide ByteCount, PrefixMonotone, SuffixMonotone, Subadditive;
    ByteCountOfSmall();
    ByteCountIsOrdered();
  }

  /** A target of 1 or 2 is positive and within the limit, and yet a short text without a heading fails. */
  lemma SmallTargetRaises(target: nat)
    requires 1 <= target <= 2
    ensures
      var spec := ChunkSpec(target, 0, 12, 0);
      && Modest(ByteCount) && PlainTools(ByteCount).Valid() && AllPlain([PlainElement("aaaaa")], 12, ByteCount)
      && ChunksOf([PlainElement("aaaaa")], spec, 12, PlainTools(ByteCount)).Err?
  {
    hide ChunksOf, Pieces;
    var spec := ChunkSpec(target, 0, 12, 0);
    ByteCountIsModest();
    var text := "aaaaa";
    assert text == Obstacle('a', "aa");
    assert text[1..] == "aaaa" && text[2..] == "aaa";
    assert "aaaa"[1..] == "aaa" && "aaa"[1..] == "aa" && "aa"[1..] == "a" && "a"[1..] == "";
    assert ByteCount("aa") == 6 && ByteCount(text) == 15 && ByteCount(['a']) == 3;
    ObstacleStops('a', "aa", target, ByteCount);
    UnsplittableTextRaises(text, spec, 12, ByteCount);
  }
}

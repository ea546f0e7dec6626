/** What the chunks of a document hold: no part of an element is lost, and every chunk says where it comes from. */
module ChunkContents {
  import opened ChunkBudgets
  import opened ChunkElements
  import opened ChunkText
  import opened ChunkTrace
  import opened HardSplit
  import opened Headings
  import opened Prelude
  import opened PythonText
  import opened SourceQuotes
  import opened SourceSpans
  import opened TextRuns

  /** The budgets for the parts of an element under its heading. */
  function Inner(e: Element, spec: ChunkSpec, count: Counter): ChunkSpec {
    var inner := Reserve(spec, e.meta.sectionPath, count);
    if inner.Ok? then inner.value else spec
  }

  // ---------------------------------------------------------------- the chunks of one element among all

  function ChunkTexts(chunks: seq<Chunk>): seq<string> {
    seq(|chunks|, k requires 0 <= k < |chunks| => chunks[k].text)
  }

  lemma TextsConcat(a: seq<Chunk>, b: seq<Chunk>)
    ensures ChunkTexts(a + b) == ChunkTexts(a) + ChunkTexts(b)
  {
  }

  lemma OneFragment(r: Record, prefix: string, body: string, ordinal: nat, count: Counter)
    ensures FragmentChunks(r, prefix, body, [body], 0, ordinal, count) == Ok([ChunkOf(r, prefix, body, body, 0, ordinal, count)])
  {
    hide ChunkOf;
    assert [body][1..] == [];
    assert FragmentChunks(r, prefix, body, [], |body|, ordinal + 1, count) == Ok([]);
    var c := ChunkOf(r, prefix, body, body, 0, ordinal, count);
    assert [c] + [] == [c];
  }

  lemma {:induction false} ChunksOfTwo(a: seq<Record>, b: seq<Record>, limit: nat, ordinal: nat, count: Counter)
    returns (first: seq<Chunk>, rest: seq<Chunk>)
    requires AllChunks(a + b, limit, ordinal, count).Ok?
    ensures AllChunks(a, limit, ordinal, count) == Ok(first)
    ensures AllChunks(b, limit, ordinal + |first|, count) == Ok(rest)
    ensures AllChunks(a + b, limit, ordinal, count) == Ok(first + rest)
  {
    hide RecordChunks;
    if a == [] {
      assert a + b == b;
      first, rest := [], AllChunks(b, limit, ordinal, count).value;
      assert [] + rest == rest;
    } else {
      assert (a + b)[0] == a[0] && (a + b)[1..] == a[1..] + b;
      var head := RecordChunks(a[0], limit, ordinal, count).value;
      first, rest := ChunksOfTwo(a[1..], b, limit, ordinal + |head|, count);
      assert head + (first + rest) == head + first + rest;
      first := head + first;
    }
  }

  lemma {:induction false} RecordsOfTwo(a: seq<Element>, b: seq<Element>, spec: ChunkSpec, t: Tools)
    requires t.Valid() && spec.target <= spec.max && AllRecords(a + b, spec, t).Ok?
    ensures AllRecords(a, spec, t).Ok? && AllRecords(b, spec, t).Ok?
    ensures AllRecords(a + b, spec, t).value == AllRecords(a, spec, t).value + AllRecords(b, spec, t).value
  {
    hide ElementRecords;
    if a == [] {
      assert a + b == b;
    } else {
      assert (a + b)[0] == a[0] && (a + b)[1..] == a[1..] + b;
      RecordsOfTwo(a[1..], b, spec, t);
    }
  }

  /** The chunks of a document, around those of one element. */
  lemma AroundElement(joined: seq<Element>, g: nat, spec: ChunkSpec, t: Tools) returns (before: seq<Chunk>, after: seq<Chunk>)
    requires t.Valid() && spec.target <= spec.max && g < |joined|
    requires AllRecords(joined, spec, t).Ok? && AllChunks(AllRecords(joined, spec, t).value, spec.max, 0, t.count).Ok?
    ensures AllRecords(joined[..g], spec, t).Ok? && ElementRecords(joined[g], spec, t).Ok?
    ensures AllChunks(AllRecords(joined[..g], spec, t).value, spec.max, 0, t.count) == Ok(before)
    ensures
      var own := AllChunks(ElementRecords(joined[g], spec, t).value, spec.max, |before|, t.count);
      && own.Ok?
      && AllChunks(AllRecords(joined, spec, t).value, spec.max, 0, t.count).value == before + own.value + after
  {
    hide AllRecords, ElementRecords, AllChunks;
    var front, e, back := joined[..g], joined[g], joined[g + 1..];
    assert joined == front + ([e] + back);
    RecordsOfTwo(front, [e] + back, spec, t);
    RecordsOfTwo([e], back, spec, t);
    OneElement(e, spec, t);
    var a, b, c := AllRecords(front, spec, t).value, ElementRecords(e, spec, t).value, AllRecords(back, spec, t).value;
    var rest, own;
    before, rest := ChunksOfTwo(a, b + c, spec.max, 0, t.count);
    own, after := ChunksOfTwo(b, c, spec.max, |before|, t.count);
    assert before + (own + after) == before + own + after;
  }

  lemma OneElement(e: Element, spec: ChunkSpec, t: Tools)
    requires t.Valid() && spec.target <= spec.max
    ensures AllRecords([e], spec, t) == ElementRecords(e, spec, t)
  {
    hide ElementRecords;
    assert [e][1..] == [] && AllRecords([], spec, t) == Ok([]);
    if ElementRecords(e, spec, t).Ok? {
      assert ElementRecords(e, spec, t).value + [] == ElementRecords(e, spec, t).value;
    }
  }

  // ---------------------------------------------------------------- parts that are left out

  /** The sections of a path put together again give the path, and none of them holds the separator. */
  lemma {:induction false} SectionsMean(path: string)
    ensures Sections(path) != [] && StrJoin(" > ", Sections(path)) == path
    ensures forall k :: 0 <= k < |Sections(path)| ==> Find(Sections(path)[k], " > ", 0) == -1
    decreases |path|
  {
    hide StrJoin, Find;
    var k := Find(path, " > ", 0);
    if k >= 0 {
      SectionsMean(path[k + 3..]);
      assert path[k..k + 3] == " > " by { assert OccursAt(path, " > ", k); }
      assert path == path[..k] + " > " + path[k + 3..];
      FirstSection(path, k);
      JoinFirst(" > ", path[..k], Sections(path[k + 3..]));
    } else {
      JoinOne(" > ", path);
    }
  }

  lemma FirstSection(path: string, k: int)
    requires k == Find(path, " > ", 0) && k >= 0
    ensures Find(path[..k], " > ", 0) == -1
  {
    hide Find;
    assert k + 3 <= |path|;
    hide OccursAt;
    forall j: nat ensures OccursAt(path[..k], " > ", j) ==> j < k && OccursAt(path, " > ", j) {
      OccursEarlier(path, k, j);
    }
  }

  lemma OccursEarlier(path: string, k: nat, j: nat)
    requires k <= |path|
    ensures OccursAt(path[..k], " > ", j) ==> j < k && OccursAt(path, " > ", j)
  {
    if OccursAt(path[..k], " > ", j) {
      assert path[j..j + 3] == path[..k][j..j + 3];
    }
  }

  lemma JoinFirst(separator: string, first: string, rest: seq<string>)
    requires rest != []
    ensures StrJoin(separator, [first] + rest) == first + separator + StrJoin(separator, rest)
  {
    assert ([first] + rest)[1..] == rest;
  }

  lemma JoinOne(separator: string, only: string)
    ensures StrJoin(separator, [only]) == only
  {
  }

  /** A part is left out exactly when it is text, not code, and nothing but a heading, or repeats a section of the path that
      was read off the page. */
  lemma DroppedExactlyWhen(e: Element, part: string, t: Tools)
    ensures Dropped(e, part, t) <==>
              || (e.modality == Text && e.routeReason != "code_block" && t.headingOnly(part))
              || (e.meta.sectionSource == Some("pdf_visible_heading")
                  && Strip(part) in Sections(match e.meta.sectionPath case Some(path) => path case None => ""))
  {
  }

  /** The parts that are not left out. */
  function KeptParts(e: Element, parts: seq<string>, t: Tools): seq<string> {
    if parts == [] then []
    else if Dropped(e, parts[0], t) then KeptParts(e, parts[1..], t)
    else [parts[0]] + KeptParts(e, parts[1..], t)
  }

  // ---------------------------------------------------------------- budgets

  /** The limit is the smaller of the two that are given, no target is above it, and no chunk counts as small that reaches it;
      without room for evidence nothing is chunked. */
  lemma BudgetsMean(elements: seq<Element>, spec: ChunkSpec, embedMax: nat, t: Tools)
    requires t.Valid()
    ensures
      var limit := Min(spec.max, embedMax);
      && Limit(spec, embedMax) == limit
      && Bounded(spec, embedMax) == ChunkSpec(Min(spec.target, limit), spec.overlap, limit, if spec.min > limit - 1 then limit - 1 else spec.min)
      && (limit < 3 || spec.target == 0 ==> ChunksOf(elements, spec, embedMax, t) == Err(InvalidBudget))
  {
    hide AllRecords, AllChunks, JoinTexts;
  }

  // ---------------------------------------------------------------- records

  /** Everything a record takes from its element: its kind, its text under the heading, and its spans, clipped to the part
      where that can be located, else marked as the region of the whole element. */
  lemma RecordMeans(e: Element, part: string, range: Option<Range>, prefix: string)
    ensures
      var r := RecordOf(e, part, range, prefix);
      var located := if range == None then FindSourceRange(e.text, part) else range;
      && r.modality == e.modality && r.extractor == e.extractor && r.routeReason == e.routeReason
      && r.sectionPath == e.meta.sectionPath
      && r.text == (if prefix == "" then part else prefix + "\n\n" + part)
      && (if e.modality == Table || e.meta.spans == [] then r.spans == e.meta.spans && r.range == None
          else if located == None then
            && r.range == None && |r.spans| == |e.meta.spans|
            && forall k :: 0 <= k < |r.spans| ==> r.spans[k] == e.meta.spans[k].(precision := Some("element_region"))
          else r.range == located && r.spans == Clip(e.meta.spans, located.value.start, located.value.end))
  {
    hide FindSourceRange, Clip;
  }

  /** The chunks of the fragments of a record, in order: their texts, and what they take from the record. */
  lemma {:induction false} FragmentTexts(r: Record, prefix: string, body: string, fragments: seq<string>, offset: nat,
                                         ordinal: nat, count: Counter)
    requires FragmentChunks(r, prefix, body, fragments, offset, ordinal, count).Ok?
    ensures
      var chunks := FragmentChunks(r, prefix, body, fragments, offset, ordinal, count).value;
      && ChunkTexts(chunks) == UnderHeading(prefix, fragments)
      && forall k :: 0 <= k < |chunks| ==> OfRecord(chunks[k], r)
    decreases |fragments|
  {
    hide FragmentSpans, Prefixed;
    if fragments != [] {
      var rest := FragmentChunks(r, prefix, body, fragments[1..], offset + |fragments[0]|, ordinal + 1, count).value;
      FragmentTexts(r, prefix, body, fragments[1..], offset + |fragments[0]|, ordinal + 1, count);
      TextsConcat([ChunkOf(r, prefix, body, fragments[0], offset, ordinal, count)], rest);
      assert UnderHeading(prefix, fragments) == [Prefixed(prefix, fragments[0])] + UnderHeading(prefix, fragments[1..]);
    }
  }

  /** The kind of a chunk is that of its record, and it is a continuation when it does not show all of it. */
  predicate OfRecord(c: Chunk, r: Record) {
    && c.modality == r.modality && c.extractor == r.extractor && c.routeReason == r.routeReason && c.sectionPath == r.sectionPath
    && (c.continuation <==> c.text != r.text)
  }

  function UnderHeading(prefix: string, fragments: seq<string>): seq<string> {
    seq(|fragments|, k requires 0 <= k < |fragments| => Prefixed(prefix, fragments[k]))
  }

  /** All groups of fragments, one after the other. */
  function AllUnderHeading(prefix: string, groups: seq<seq<string>>): seq<string> {
    if groups == [] then [] else UnderHeading(prefix, groups[0]) + AllUnderHeading(prefix, groups[1..])
  }

  predicate OfElement(c: Chunk, e: Element) {
    c.modality == e.modality && c.extractor == e.extractor && c.routeReason == e.routeReason && c.sectionPath == e.meta.sectionPath
  }

  /** The part of a record is in its chunks, cut but whole. */
  lemma RecordTexts(e: Element, part: string, range: Option<Range>, prefix: string, limit: nat, ordinal: nat, count: Counter)
    returns (fragments: seq<string>)
    requires BoundedHeading(e.meta.sectionPath, limit, count) == Ok(prefix)
    requires RecordChunks(RecordOf(e, part, range, prefix), limit, ordinal, count).Ok?
    ensures HardSplit.Joined(fragments) == part
    ensures
      var chunks := RecordChunks(RecordOf(e, part, range, prefix), limit, ordinal, count).value;
      ChunkTexts(chunks) == UnderHeading(prefix, fragments) && forall k :: 0 <= k < |chunks| ==> OfElement(chunks[k], e)
  {
    hide BoundedHeading, FragmentChunks, Pieces, Prefixed, Body;
    var r := RecordOf(e, part, range, prefix);
    BodyOfPrefixed(prefix, part);
    RecordMeans(e, part, range, prefix);
    var budget := BodyBudget(prefix, limit, count);
    fragments := Pieces(part, budget, count).value;
    PiecesPartition(part, budget, count);
    FragmentTexts(r, prefix, part, fragments, 0, ordinal, count);
  }

  lemma {:induction false} PartsTexts(e: Element, parts: seq<string>, ranges: seq<Range>, k: nat, prefix: string, t: Tools,
                                      limit: nat, ordinal: nat)
    returns (groups: seq<seq<string>>)
    requires BoundedHeading(e.meta.sectionPath, limit, t.count) == Ok(prefix)
    requires k <= |parts| && (ranges == [] || |ranges| == |parts|)
    requires AllChunks(PartRecords(e, parts, ranges, k, prefix, t), limit, ordinal, t.count).Ok?
    ensures
      var chunks, kept := AllChunks(PartRecords(e, parts, ranges, k, prefix, t), limit, ordinal, t.count).value, KeptParts(e, parts[k..], t);
      && |groups| == |kept| && (forall g :: 0 <= g < |groups| ==> HardSplit.Joined(groups[g]) == kept[g])
      && ChunkTexts(chunks) == AllUnderHeading(prefix, groups)
      && forall i :: 0 <= i < |chunks| ==> OfElement(chunks[i], e)
    decreases |parts| - k
  {
    hide BoundedHeading, RecordChunks, RecordOf, Dropped, UnderHeading, OfElement;
    if k == |parts| {
      groups := [];
    } else {
      assert parts[k..][0] == parts[k] && parts[k..][1..] == parts[k + 1..];
      if Dropped(e, parts[k], t) {
        groups := PartsTexts(e, parts, ranges, k + 1, prefix, t, limit, ordinal);
      } else {
        var range := if ranges != [] then Some(ranges[k]) else None;
        var r, rest := RecordOf(e, parts[k], range, prefix), PartRecords(e, parts, ranges, k + 1, prefix, t);
        assert ([r] + rest)[0] == r && ([r] + rest)[1..] == rest;
        var first := RecordChunks(r, limit, ordinal, t.count).value;
        var fragments := RecordTexts(e, parts[k], range, prefix, limit, ordinal, t.count);
        var more := PartsTexts(e, parts, ranges, k + 1, prefix, t, limit, ordinal + |first|);
        TextsConcat(first, AllChunks(rest, limit, ordinal + |first|, t.count).value);
        groups := [fragments] + more;
        assert groups[1..] == more;
      }
    }
  }

  lemma ElementTexts(e: Element, spec: ChunkSpec, t: Tools, ordinal: nat) returns (groups: seq<seq<string>>)
    requires t.Valid() && spec.target <= spec.max && !(e.meta.omission && Strip(e.text) == "")
    requires ElementRecords(e, spec, t).Ok? && AllChunks(ElementRecords(e, spec, t).value, spec.max, ordinal, t.count).Ok?
    ensures BoundedHeading(e.meta.sectionPath, spec.max, t.count).Ok?
    ensures Inner(e, spec, t.count).target <= Inner(e, spec, t.count).max && PartsOf(e, Inner(e, spec, t.count), t).Ok?
    ensures
      var chunks := AllChunks(ElementRecords(e, spec, t).value, spec.max, ordinal, t.count).value;
      var kept := KeptParts(e, PartsOr(PartsOf(e, Inner(e, spec, t.count), t).value.parts, e.text), t);
      && |groups| == |kept| && (forall k :: 0 <= k < |groups| ==> HardSplit.Joined(groups[k]) == kept[k])
      && ChunkTexts(chunks) == AllUnderHeading(BoundedHeading(e.meta.sectionPath, spec.max, t.count).value, groups)
      && forall i :: 0 <= i < |chunks| ==> OfElement(chunks[i], e)
  {
    hide BoundedHeading, AllChunks, PartRecords, KeptParts, Reserve, PartsOf, OfElement;
    ReserveOk(spec, e.meta.sectionPath, t.count);
    var inner := Reserve(spec, e.meta.sectionPath, t.count).value;
    ReserveKeepsOrder(spec, e.meta.sectionPath, t.count);
    var split := PartsOf(e, inner, t).value;
    var prefix := BoundedHeading(e.meta.sectionPath, spec.max, t.count).value;
    var parts := PartsOr(split.parts, e.text);
    groups := PartsTexts(e, parts, if split.parts == [] then [] else split.ranges, 0, prefix, t, spec.max, ordinal);
    assert parts[0..] == parts;
  }

  /** No part of an element is lost: whatever the counter, when chunking succeeds, the chunks of an element stand in its place
      among the others, they show its parts in order, each cut into fragments that make it up, all under its heading, and
      they are of its kind. Only parts that repeat a heading are missing. */
  lemma ElementStaysWhole(elements: seq<Element>, spec: ChunkSpec, embedMax: nat, t: Tools, g: nat)
    returns (before: seq<Chunk>, own: seq<Chunk>, after: seq<Chunk>, groups: seq<seq<string>>)
    requires t.Valid() && ChunksOf(elements, spec, embedMax, t).Ok? && g < |JoinTexts(elements)|
    requires !(JoinTexts(elements)[g].meta.omission && Strip(JoinTexts(elements)[g].text) == "")
    ensures ChunksOf(elements, spec, embedMax, t).value == before + own + after
    ensures
      var e, bounded := JoinTexts(elements)[g], Bounded(spec, embedMax);
      var prefix := BoundedHeading(e.meta.sectionPath, bounded.max, t.count);
      && prefix.Ok? && Inner(e, bounded, t.count).target <= Inner(e, bounded, t.count).max
      && PartsOf(e, Inner(e, bounded, t.count), t).Ok?
      && var kept := KeptParts(e, PartsOr(PartsOf(e, Inner(e, bounded, t.count), t).value.parts, e.text), t);
         && |groups| == |kept| && (forall k :: 0 <= k < |groups| ==> HardSplit.Joined(groups[k]) == kept[k])
         && ChunkTexts(own) == AllUnderHeading(prefix.value, groups)
         && forall i :: 0 <= i < |own| ==> OfElement(own[i], e)
  {
    hide JoinTexts, AllRecords, AllChunks, ElementRecords, KeptParts, Inner, BoundedHeading, PartsOr, PartsOf, OfElement;
    var joined, bounded := JoinTexts(elements), Bounded(spec, embedMax);
    before, after := AroundElement(joined, g, bounded, t);
    own := AllChunks(ElementRecords(joined[g], bounded, t).value, bounded.max, |before|, t.count).value;
    groups := ElementTexts(joined[g], bounded, t, |before|);
  }
}

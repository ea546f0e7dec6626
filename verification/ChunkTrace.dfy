/** Where the characters of a chunk come from: every source span of every finished chunk leads back to them. */
module ChunkTrace {
  import opened ChunkElements
  import opened ChunkText
  import opened HardSplit
  import opened Headings
  import opened Prelude
  import opened ProsePacking
  import opened ProseUnits
  import opened SourceQuotes
  import opened SourceSpans
  import opened TextRuns

  predicate Lies(iv: Range, text: string) {
    iv.start <= iv.end <= |text|
  }

  // ---------------------------------------------------------------- parts are slices

  /** The parts of an element are its text at the ranges; without ranges there is one part, all of it. */
  predicate PartsFit(el: Element, parts: seq<string>, ranges: seq<Range>) {
    if ranges == [] then parts == [el.text]
    else
      && |ranges| == |parts|
      && forall k :: 0 <= k < |parts| ==> Lies(ranges[k], el.text) && el.text[ranges[k].start..ranges[k].end] == parts[k]
  }

  lemma {:induction false} PlacedSlices(text: string, parts: seq<string>, offset: nat, k: nat)
    requires offset + |HardSplit.Joined(parts)| <= |text|
    requires text[offset..offset + |HardSplit.Joined(parts)|] == HardSplit.Joined(parts) && k < |parts|
    ensures |Placed(parts, offset)| == |parts|
    ensures Lies(Placed(parts, offset)[k], text)
    ensures text[Placed(parts, offset)[k].start..Placed(parts, offset)[k].end] == parts[k]
  {
    PlacedLength(parts, offset);
    var joined, n := HardSplit.Joined(parts), |parts[0]|;
    var rest := HardSplit.Joined(parts[1..]);
    assert joined[..n] == parts[0] && joined[n..] == rest;
    if k == 0 {
      SubSlice(text, offset, |joined|, 0, n);
    } else {
      SubSlice(text, offset, |joined|, n, |joined|);
      PlacedSlices(text, parts[1..], offset + n, k - 1);
    }
  }

  lemma CodeFits(el: Element, spec: ChunkSpec, t: Tools)
    requires el.routeReason == "code_block" && Pieces(el.text, spec.max, t.count).Ok?
    ensures
      var parts := Pieces(el.text, spec.max, t.count).value;
      parts != [] ==> PartsFit(el, parts, Placed(parts, 0))
  {
    var parts := Pieces(el.text, spec.max, t.count).value;
    PiecesPartition(el.text, spec.max, t.count);
    PlacedLength(parts, 0);
    assert el.text[0..|el.text|] == el.text;
    forall k | 0 <= k < |parts|
      ensures Lies(Placed(parts, 0)[k], el.text) && el.text[Placed(parts, 0)[k].start..Placed(parts, 0)[k].end] == parts[k]
    {
      PlacedSlices(el.text, parts, 0, k);
    }
  }

  lemma ProseFits(el: Element, spec: ChunkSpec, t: Tools)
    requires t.Valid() && spec.target <= spec.max
    requires ProseRanges(el.text, spec, t.count, t.paragraphs, t.sentences).Ok?
    ensures
      var ranges := ProseRanges(el.text, spec, t.count, t.paragraphs, t.sentences).value;
      && (forall k :: 0 <= k < |ranges| ==> Within(ranges[k], el.text))
      && (ranges != [] ==> PartsFit(el, SlicesOf(el.text, ranges), ranges))
  {
    ProseRangesHold(el.text, spec, t.count, t.paragraphs, t.sentences);
  }

  lemma PartsOfFit(el: Element, spec: ChunkSpec, t: Tools)
    requires t.Valid() && spec.target <= spec.max && el.modality != Table && PartsOf(el, spec, t).Ok?
    ensures PartsOf(el, spec, t).value.parts != [] ==>
              PartsFit(el, PartsOf(el, spec, t).value.parts, PartsOf(el, spec, t).value.ranges)
  {
    hide PartsFit, ProseRanges, Pieces;
    if el.routeReason == "code_block" {
      CodeFits(el, spec, t);
    } else {
      ProseFits(el, spec, t);
    }
  }

  lemma FindWhole(text: string)
    ensures FindSourceRange(text, text) == Some(Range(0, |text|))
  {
    assert OccursAt(text, text, 0);
  }

  // ---------------------------------------------------------------- records

  /** The span is a part of the other, and leads to the same characters. */
  predicate PartOf(s: Span, o: Span) {
    && SameOrigin(s, o)
    && (HasOffsets(o) ==> o.start.value <= s.start.value <= s.end.value <= o.end.value)
  }

  lemma PartOfTwice(s: Span, m: Span, o: Span)
    requires PartOf(s, m) && PartOf(m, o)
    ensures PartOf(s, o)
  {
  }

  predicate InInterval(s: Span, iv: Range) {
    HasOffsets(s) ==> iv.start <= s.start.value < s.end.value <= iv.end
  }

  /** The span describes the text of el, lies in the interval, and is part of one of the spans of el. */
  predicate SpanFrom(s: Span, el: Element, iv: Range) {
    && Describes(s, el.text) && InInterval(s, iv)
    && exists o :: o in el.meta.spans && PartOf(s, o)
  }

  lemma ClippedFrom(spans: seq<Span>, s: Span, el: Element, iv: Range, outer: Range)
    requires forall m :: m in spans ==> (m in el.meta.spans && Describes(m, el.text)) || SpanFrom(m, el, outer)
    requires s in Clip(spans, iv.start, iv.end)
    ensures SpanFrom(s, el, iv)
  {
    var k := ClipFrom(spans, iv.start, iv.end, s);
    var m := spans[k];
    assert Describes(m, el.text);
    ClipSpanKeeps(m, el.text, iv.start, iv.end);
    assert PartOf(s, m);
    if m in el.meta.spans && Describes(m, el.text) {
    } else {
      var o :| o in el.meta.spans && PartOf(m, o);
      PartOfTwice(s, m, o);
    }
  }

  /** The record holds the text of el in the interval, and its spans lead back. */
  predicate RecordFrom(r: Record, el: Element, prefix: string, iv: Range) {
    && Lies(iv, el.text)
    && r.modality == el.modality && r.sectionPath == el.meta.sectionPath
    && r.text == Prefixed(prefix, el.text[iv.start..iv.end])
    && (r.range == Some(iv) || r.spans == [])
    && forall s :: s in r.spans ==> SpanFrom(s, el, iv)
  }

  lemma RecordOfFrom(el: Element, part: string, range: Option<Range>, prefix: string) returns (iv: Range)
    requires el.modality != Table && AllDescribe(el.meta.spans, el.text)
    requires range.Some? ==> Lies(range.value, el.text) && el.text[range.value.start..range.value.end] == part
    requires range.None? ==> part == el.text
    ensures RecordFrom(RecordOf(el, part, range, prefix), el, prefix, iv)
  {
    FindWhole(el.text);
    iv := if range.Some? then range.value else Range(0, |el.text|);
    assert el.text[0..|el.text|] == el.text;
    var r := RecordOf(el, part, range, prefix);
    if el.meta.spans != [] {
      forall s | s in r.spans ensures SpanFrom(s, el, iv) {
        forall m | m in el.meta.spans ensures Describes(m, el.text) {
          var k :| 0 <= k < |el.meta.spans| && el.meta.spans[k] == m;
        }
        ClippedFrom(el.meta.spans, s, el, iv, iv);
      }
    }
  }

  lemma {:induction false} PartRecordsFrom(el: Element, parts: seq<string>, ranges: seq<Range>, k: nat, prefix: string,
                                           t: Tools, r: Record)
    returns (iv: Range)
    requires el.modality != Table && AllDescribe(el.meta.spans, el.text) && PartsFit(el, parts, ranges)
    requires k <= |parts| && r in PartRecords(el, parts, ranges, k, prefix, t)
    ensures RecordFrom(r, el, prefix, iv)
    decreases |parts| - k
  {
    if r in PartRecords(el, parts, ranges, k + 1, prefix, t) {
      iv := PartRecordsFrom(el, parts, ranges, k + 1, prefix, t, r);
    } else {
      iv := RecordOfFrom(el, parts[k], if ranges != [] then Some(ranges[k]) else None, prefix);
    }
  }

  /** Every record of an element lies in it and leads back to its spans. */
  lemma ElementRecordsFrom(el: Element, spec: ChunkSpec, t: Tools, r: Record) returns (iv: Range)
    requires t.Valid() && spec.target <= spec.max && el.modality != Table && AllDescribe(el.meta.spans, el.text)
    requires ElementRecords(el, spec, t).Ok? && r in ElementRecords(el, spec, t).value
    ensures BoundedHeading(el.meta.sectionPath, spec.max, t.count).Ok?
    ensures RecordFrom(r, el, BoundedHeading(el.meta.sectionPath, spec.max, t.count).value, iv)
  {
    hide PartsOf, RecordFrom, AllDescribe, PartRecords;
    var inner := Reserve(spec, el.meta.sectionPath, t.count).value;
    ReserveKeepsOrder(spec, el.meta.sectionPath, t.count);
    PartsOfFit(el, inner, t);
    var split := PartsOf(el, inner, t).value;
    var prefix := BoundedHeading(el.meta.sectionPath, spec.max, t.count).value;
    if split.parts == [] {
      iv := PartRecordsFrom(el, [el.text], [], 0, prefix, t, r);
    } else {
      iv := PartRecordsFrom(el, split.parts, split.ranges, 0, prefix, t, r);
    }
  }

  // ---------------------------------------------------------------- fragments

  lemma {:induction false} FragmentAt(record: Record, prefix: string, body: string, fragments: seq<string>, offset: nat,
                                      ordinal: nat, count: Counter, k: nat)
    requires FragmentChunks(record, prefix, body, fragments, offset, ordinal, count).Ok? && k < |fragments|
    ensures
      var chunks := FragmentChunks(record, prefix, body, fragments, offset, ordinal, count).value;
      && |chunks| == |fragments|
      && chunks[k] == ChunkOf(record, prefix, body, fragments[k], offset + TotalLength(fragments[..k]), ordinal + k, count)
    decreases |fragments|
  {
    hide ChunkOf;
    var rest := fragments[1..];
    var next := FragmentChunks(record, prefix, body, rest, offset + |fragments[0]|, ordinal + 1, count);
    if rest != [] {
      FragmentAt(record, prefix, body, rest, offset + |fragments[0]|, ordinal + 1, count, if k == 0 then 0 else k - 1);
    } else {
      assert next == Ok([]);
    }
    if k > 0 {
      assert fragments[..k][1..] == rest[..k - 1];
    }
  }

  lemma {:induction false} JoinedAt(parts: seq<string>, k: nat)
    requires k < |parts|
    ensures
      var at := TotalLength(parts[..k]);
      at + |parts[k]| <= |HardSplit.Joined(parts)| && HardSplit.Joined(parts)[at..at + |parts[k]|] == parts[k]
  {
    var joined, rest := HardSplit.Joined(parts), HardSplit.Joined(parts[1..]);
    assert joined == parts[0] + rest;
    if k > 0 {
      JoinedAt(parts[1..], k - 1);
      assert parts[..k][1..] == parts[1..][..k - 1];
      var at := TotalLength(parts[1..][..k - 1]);
      assert joined[|parts[0]|..] == rest;
      assert joined[|parts[0]| + at..|parts[0]| + at + |parts[k]|] == rest[at..at + |parts[k]|];
    }
  }

  lemma {:induction false} TotalIsLength(parts: seq<string>)
    ensures TotalLength(parts) == |HardSplit.Joined(parts)|
  {
    if parts != [] {
      TotalIsLength(parts[1..]);
    }
  }

  /** The chunk shows the text of el in the interval under its heading, and all its spans lead back. */
  predicate ChunkFrom(c: Chunk, el: Element, prefix: string, iv: Range) {
    && Lies(iv, el.text)
    && c.text == Prefixed(prefix, el.text[iv.start..iv.end])
    && forall s :: s in c.spans ==> SpanFrom(s, el, iv)
  }

  lemma FragmentFrom(r: Record, el: Element, prefix: string, outer: Range, fragment: string, offset: nat, ordinal: nat, count: Counter)
    requires RecordFrom(r, el, prefix, outer)
    requires offset + |fragment| <= outer.end - outer.start
    requires el.text[outer.start..outer.end][offset..offset + |fragment|] == fragment
    ensures
      var iv := Range(outer.start + offset, outer.start + offset + |fragment|);
      ChunkFrom(ChunkOf(r, prefix, el.text[outer.start..outer.end], fragment, offset, ordinal, count), el, prefix, iv)
  {
    var body := el.text[outer.start..outer.end];
    SubSlice(el.text, outer.start, |body|, offset, offset + |fragment|);
    FragmentSpansFrom(r, el, prefix, outer, fragment, offset);
  }

  lemma FragmentSpansFrom(r: Record, el: Element, prefix: string, outer: Range, fragment: string, offset: nat)
    requires RecordFrom(r, el, prefix, outer) && offset + |fragment| <= outer.end - outer.start
    ensures forall s :: s in FragmentSpans(r, el.text[outer.start..outer.end], fragment, offset) ==>
              SpanFrom(s, el, Range(outer.start + offset, outer.start + offset + |fragment|))
  {
    hide SpanFrom, Clip;
    var iv := Range(outer.start + offset, outer.start + offset + |fragment|);
    forall s | s in FragmentSpans(r, el.text[outer.start..outer.end], fragment, offset) ensures SpanFrom(s, el, iv) {
      if r.range.Some? && fragment != el.text[outer.start..outer.end] {
        NothingClipped(r.spans, Range(r.range.value.start + offset, r.range.value.start + offset + |fragment|));
        ClippedFrom(r.spans, s, el, iv, outer);
      }
    }
  }

  lemma NothingClipped(spans: seq<Span>, iv: Range)
    ensures spans == [] ==> Clip(spans, iv.start, iv.end) == []
  {
  }

  /** Every final fragment of a record lies in its element and leads back. */
  lemma RecordChunksFrom(r: Record, el: Element, limit: nat, outer: Range, ordinal: nat, count: Counter, k: nat) returns (iv: Range)
    requires BoundedHeading(el.meta.sectionPath, limit, count).Ok?
    requires RecordFrom(r, el, BoundedHeading(el.meta.sectionPath, limit, count).value, outer)
    requires RecordChunks(r, limit, ordinal, count).Ok? && k < |RecordChunks(r, limit, ordinal, count).value|
    ensures ChunkFrom(RecordChunks(r, limit, ordinal, count).value[k], el, BoundedHeading(el.meta.sectionPath, limit, count).value, iv)
  {
    hide ChunkFrom, FragmentChunks, Pieces;
    var prefix := BoundedHeading(el.meta.sectionPath, limit, count).value;
    var body := el.text[outer.start..outer.end];
    BodyOfPrefixed(prefix, body);
    var budget := BodyBudget(prefix, limit, count);
    var fragments := Pieces(body, budget, count).value;
    PiecesPartition(body, budget, count);
    assert fragments != [] by { NoFragmentsNoChunks(r, prefix, body, ordinal, count); }
    FragmentAt(r, prefix, body, fragments, 0, ordinal, count, 0);
    FragmentAt(r, prefix, body, fragments, 0, ordinal, count, k);
    JoinedAt(fragments, k);
    var offset := TotalLength(fragments[..k]);
    FragmentFrom(r, el, prefix, outer, fragments[k], offset, ordinal + k, count);
    iv := Range(outer.start + offset, outer.start + offset + |fragments[k]|);
  }

  lemma NoFragmentsNoChunks(r: Record, prefix: string, body: string, ordinal: nat, count: Counter)
    ensures FragmentChunks(r, prefix, body, [], 0, ordinal, count) == Ok([])
  {
  }

  // ---------------------------------------------------------------- the whole document

  lemma {:induction false} AllChunksFrom(records: seq<Record>, limit: nat, ordinal: nat, count: Counter, c: Chunk)
    returns (r: Record, at: nat, k: nat)
    requires AllChunks(records, limit, ordinal, count).Ok? && c in AllChunks(records, limit, ordinal, count).value
    ensures r in records && RecordChunks(r, limit, at, count).Ok?
    ensures k < |RecordChunks(r, limit, at, count).value| && RecordChunks(r, limit, at, count).value[k] == c
  {
    hide RecordChunks;
    var first := RecordChunks(records[0], limit, ordinal, count).value;
    if c in first {
      r, at := records[0], ordinal;
      k :| 0 <= k < |first| && first[k] == c;
    } else {
      r, at, k := AllChunksFrom(records[1..], limit, ordinal + |first|, count, c);
    }
  }

  lemma {:induction false} AllRecordsFrom(elements: seq<Element>, spec: ChunkSpec, t: Tools, r: Record) returns (el: Element)
    requires t.Valid() && spec.target <= spec.max
    requires AllRecords(elements, spec, t).Ok? && r in AllRecords(elements, spec, t).value
    ensures el in elements && ElementRecords(el, spec, t).Ok? && r in ElementRecords(el, spec, t).value
  {
    hide ElementRecords;
    if r in ElementRecords(elements[0], spec, t).value {
      el := elements[0];
    } else {
      el := AllRecordsFrom(elements[1..], spec, t, r);
    }
  }

  /** A span of a joined element, or a part of one, leads to the characters of one element of the run. */
  lemma PartFromElement(s: Span, o: Span, run: seq<Element>, k: nat)
    requires |run| > 1 && k < |run| && FromElement(o, run, k, Separator(run)) && PartOf(s, o) && Describes(s, JoinRun(run).text)
    ensures FromElement(s, run, k, Separator(run))
  {
    TextAtOffset(run, k, Separator(run));
    SubSlice(JoinRun(run).text, Offset(run[..k], Separator(run)), |run[k].text|, s.elementStart.value, s.elementEnd.value);
  }

  /** The span leads to one element of the run: by its offsets when the run was joined, else by a span of its own. */
  ghost predicate LeadsBack(s: Span, run: seq<Element>)
    requires run != []
  {
    if |run| > 1 then exists k :: 0 <= k < |run| && FromElement(s, run, k, Separator(run))
    else exists o :: o in run[0].meta.spans && PartOf(s, o)
  }

  /** What a finished chunk shows: a stretch of the text of one run of elements, under its heading, with spans that
      describe characters of that stretch and lead back to them. */
  ghost predicate Traced(c: Chunk, run: seq<Element>, iv: Range, limit: nat, count: Counter) {
    && run != [] && Lies(iv, JoinRun(run).text)
    && BoundedHeading(JoinRun(run).meta.sectionPath, limit, count).Ok?
    && c.text == Prefixed(BoundedHeading(JoinRun(run).meta.sectionPath, limit, count).value, JoinRun(run).text[iv.start..iv.end])
    && forall s :: s in c.spans ==> Describes(s, JoinRun(run).text) && InInterval(s, iv) && LeadsBack(s, run)
  }

  lemma SpansLeadBack(c: Chunk, run: seq<Element>, iv: Range, limit: nat, count: Counter)
    requires run != [] && forall k :: 0 <= k < |run| ==> SpansMatch(run[k])
    requires BoundedHeading(JoinRun(run).meta.sectionPath, limit, count).Ok?
    requires ChunkFrom(c, JoinRun(run), BoundedHeading(JoinRun(run).meta.sectionPath, limit, count).value, iv)
    ensures Traced(c, run, iv, limit, count)
  {
    hide BoundedHeading, FromElement;
    forall s | s in c.spans ensures LeadsBack(s, run) {
      var o :| o in JoinRun(run).meta.spans && PartOf(s, o);
      if |run| > 1 {
        JoinedSpansMapBack(run);
        var k :| 0 <= k < |run| && FromElement(o, run, k, Separator(run));
        PartFromElement(s, o, run, k);
      }
    }
  }

  lemma {:induction false} RunsOf(elements: seq<Element>, g: nat)
    requires g < |Runs(elements)|
    ensures Runs(elements)[g] != [] && forall e :: e in Runs(elements)[g] ==> e in elements
  {
    var n := RunLength(elements);
    if g > 0 {
      RunsOf(elements[n..], g - 1);
    }
  }

  lemma JoinedDescribe(run: seq<Element>)
    requires run != [] && forall k :: 0 <= k < |run| ==> SpansMatch(run[k])
    ensures AllDescribe(JoinRun(run).meta.spans, JoinRun(run).text)
  {
    if |run| > 1 {
      JoinedSpansMapBack(run);
    } else {
      assert SpansMatch(run[0]);
    }
  }

  lemma {:induction false} PartRecordsKind(el: Element, parts: seq<string>, ranges: seq<Range>, k: nat, prefix: string,
                                               t: Tools, r: Record)
    requires k <= |parts| && (ranges == [] || |ranges| == |parts|) && r in PartRecords(el, parts, ranges, k, prefix, t)
    ensures r.modality == el.modality && r.sectionPath == el.meta.sectionPath
    decreases |parts| - k
  {
    if r in PartRecords(el, parts, ranges, k + 1, prefix, t) {
      PartRecordsKind(el, parts, ranges, k + 1, prefix, t, r);
    }
  }

  lemma ElementRecordsKind(el: Element, spec: ChunkSpec, t: Tools, r: Record)
    requires t.Valid() && spec.target <= spec.max
    requires ElementRecords(el, spec, t).Ok? && r in ElementRecords(el, spec, t).value
    ensures r.modality == el.modality && r.sectionPath == el.meta.sectionPath
  {
    hide PartsOf, PartRecords;
    var inner := Reserve(spec, el.meta.sectionPath, t.count).value;
    ReserveKeepsOrder(spec, el.meta.sectionPath, t.count);
    var split := PartsOf(el, inner, t).value;
    var prefix := BoundedHeading(el.meta.sectionPath, spec.max, t.count).value;
    if split.parts == [] {
      PartRecordsKind(el, [el.text], [], 0, prefix, t, r);
    } else {
      PartRecordsKind(el, split.parts, split.ranges, 0, prefix, t, r);
    }
  }

  lemma RecordChunksModality(r: Record, limit: nat, ordinal: nat, count: Counter, k: nat)
    requires RecordChunks(r, limit, ordinal, count).Ok? && k < |RecordChunks(r, limit, ordinal, count).value|
    ensures RecordChunks(r, limit, ordinal, count).value[k].modality == r.modality
  {
    hide FragmentChunks, Pieces;
    var prefix := BoundedHeading(r.sectionPath, limit, count).value;
    var body := Body(r.text, prefix);
    var fragments := Pieces(body, BodyBudget(prefix, limit, count), count).value;
    if fragments == [] {
      NoFragmentsNoChunks(r, prefix, body, ordinal, count);
    } else {
      FragmentAt(r, prefix, body, fragments, 0, ordinal, count, 0);
      FragmentAt(r, prefix, body, fragments, 0, ordinal, count, k);
    }
  }

  lemma RunTrace(run: seq<Element>, spec: ChunkSpec, t: Tools, r: Record, at: nat, k: nat) returns (iv: Range)
    requires t.Valid() && spec.target <= spec.max
    requires run != [] && forall j :: 0 <= j < |run| ==> SpansMatch(run[j])
    requires ElementRecords(JoinRun(run), spec, t).Ok? && r in ElementRecords(JoinRun(run), spec, t).value
    requires RecordChunks(r, spec.max, at, t.count).Ok? && k < |RecordChunks(r, spec.max, at, t.count).value|
    requires RecordChunks(r, spec.max, at, t.count).value[k].modality != Table
    ensures Traced(RecordChunks(r, spec.max, at, t.count).value[k], run, iv, spec.max, t.count)
  {
    hide Traced, ChunkFrom, RecordFrom, AllDescribe, SpansMatch, JoinRun, BoundedHeading, RecordChunks, ElementRecords;
    var el := JoinRun(run);
    RecordChunksModality(r, spec.max, at, t.count, k);
    ElementRecordsKind(el, spec, t, r);
    JoinedDescribe(run);
    var outer := ElementRecordsFrom(el, spec, t, r);
    iv := RecordChunksFrom(r, el, spec.max, outer, at, t.count, k);
    SpansLeadBack(RecordChunks(r, spec.max, at, t.count).value[k], run, iv, spec.max, t.count);
  }

  lemma RunOfElement(elements: seq<Element>, el: Element) returns (g: nat)
    requires el in JoinTexts(elements)
    ensures g < |Runs(elements)| && Runs(elements)[g] != [] && el == JoinRun(Runs(elements)[g])
    ensures forall e :: e in Runs(elements)[g] ==> e in elements
  {
    hide JoinRun;
    RunsNonempty(elements);
    var joined := JoinTexts(elements);
    g :| 0 <= g < |joined| && joined[g] == el;
    RunsOf(elements, g);
  }

  /** End to end, through joining, packing and the last split: given elements whose spans agree with their text, every
      chunk but those of tables is traced to one run of elements. */
  lemma ChunksTrace(elements: seq<Element>, spec: ChunkSpec, embedMax: nat, t: Tools, c: Chunk) returns (g: nat, iv: Range)
    requires t.Valid() && forall e :: e in elements ==> SpansMatch(e)
    requires ChunksOf(elements, spec, embedMax, t).Ok? && c in ChunksOf(elements, spec, embedMax, t).value
    requires c.modality != Table
    ensures g < |Runs(elements)| && Traced(c, Runs(elements)[g], iv, Limit(spec, embedMax), t.count)
  {
    hide Traced, SpansMatch, JoinRun, JoinTexts, AllChunks, AllRecords, RecordChunks, ElementRecords;
    var bounded, joined := Bounded(spec, embedMax), JoinTexts(elements);
    var records := AllRecords(joined, bounded, t).value;
    var r, at, k := AllChunksFrom(records, bounded.max, 0, t.count, c);
    var el := AllRecordsFrom(joined, bounded, t, r);
    g := RunOfElement(elements, el);
    var run := Runs(elements)[g];
    forall j | 0 <= j < |run| ensures SpansMatch(run[j]) {
      assert run[j] in elements;
    }
    iv := RunTrace(run, bounded, t, r, at, k);
  }

  /** Every chunk outside tables shows text of one page, one sheet and one section: all elements of the run it is traced to
      have the same. */
  lemma ChunkOfOnePage(elements: seq<Element>, spec: ChunkSpec, embedMax: nat, t: Tools, c: Chunk) returns (g: nat, iv: Range)
    requires t.Valid() && forall e :: e in elements ==> SpansMatch(e)
    requires ChunksOf(elements, spec, embedMax, t).Ok? && c in ChunksOf(elements, spec, embedMax, t).value
    requires c.modality != Table
    ensures g < |Runs(elements)| && Traced(c, Runs(elements)[g], iv, Limit(spec, embedMax), t.count)
    ensures forall a, b :: a in Runs(elements)[g] && b in Runs(elements)[g] ==>
              && a.meta.place.page == b.meta.place.page && a.meta.sheet == b.meta.sheet
              && a.meta.sectionPath == b.meta.sectionPath && a.extractor == b.extractor
  {
    hide Traced, SpansMatch, ChunksOf, Runs, Joinable;
    g, iv := ChunksTrace(elements, spec, embedMax, t, c);
    RunsExactly(elements, g);
  }

  // ---------------------------------------------------------------- nothing lost, nothing repeated

  /** The last split partitions every span of a record among the chunks it makes. */
  lemma LastSplitPartitions(r: Record, el: Element, limit: nat, outer: Range, ordinal: nat, count: Counter, s: Span)
    requires BoundedHeading(el.meta.sectionPath, limit, count).Ok?
    requires RecordFrom(r, el, BoundedHeading(el.meta.sectionPath, limit, count).value, outer)
    requires RecordChunks(r, limit, ordinal, count).Ok? && s in r.spans && HasOffsets(s)
    ensures
      var prefix := BoundedHeading(el.meta.sectionPath, limit, count).value;
      var fragments := Pieces(el.text[outer.start..outer.end], BodyBudget(prefix, limit, count), count);
      && fragments.Ok?
      && Chained(Fragments(s, fragments.value, outer.start), s.start.value, s.end.value)
  {
    hide Pieces, FragmentChunks, Chained;
    var prefix := BoundedHeading(el.meta.sectionPath, limit, count).value;
    var body, budget := el.text[outer.start..outer.end], BodyBudget(prefix, limit, count);
    BodyOfPrefixed(prefix, body);
    PiecesPartition(body, budget, count);
    var fragments := Pieces(body, budget, count).value;
    TotalIsLength(fragments);
    assert SpanFrom(s, el, outer);
    FragmentsPartition(s, fragments, outer.start, s.start.value);
  }

  lemma {:induction false} ClipHas(spans: seq<Span>, s: Span, a: nat, b: nat)
    requires s in spans && ClipSpan(s, a, b).Some?
    ensures ClipSpan(s, a, b).value in Clip(spans, a, b)
  {
    if s != spans[0] {
      ClipHas(spans[1..], s, a, b);
    }
  }

  lemma ClipWhole(s: Span, text: string, iv: Range)
    requires HasOffsets(s) && Describes(s, text) && InInterval(s, iv)
    ensures ClipSpan(s, iv.start, iv.end) == Some(s)
  {
    ClipSpanKeeps(s, text, iv.start, iv.end);
    if s.text.Some? {
      assert s.text.value[0..|s.text.value|] == s.text.value;
    }
  }

  /** And the piece of a span that falls to a fragment is one of the spans of that chunk. */
  lemma PieceIsInChunk(r: Record, el: Element, prefix: string, outer: Range, fragments: seq<string>, ordinal: nat, count: Counter,
                       s: Span, k: nat)
    requires RecordFrom(r, el, prefix, outer) && s in r.spans && HasOffsets(s)
    requires k < |fragments| && HardSplit.Joined(fragments) == el.text[outer.start..outer.end]
    ensures
      var body, offset := el.text[outer.start..outer.end], TotalLength(fragments[..k]);
      var start := outer.start + offset;
      var piece := ClipSpan(s, start, start + |fragments[k]|);
      piece.Some? ==> piece.value in ChunkOf(r, prefix, body, fragments[k], offset, ordinal, count).spans
  {
    var body, offset := el.text[outer.start..outer.end], TotalLength(fragments[..k]);
    var start := outer.start + offset;
    hide HardSplit.Joined, TotalLength, ClipSpan, Clip;
    JoinedAt(fragments, k);
    assert SpanFrom(s, el, outer);
    if fragments[k] == body {
      ClipWhole(s, el.text, outer);
    } else if ClipSpan(s, start, start + |fragments[k]|).Some? {
      ClipHas(r.spans, s, start, start + |fragments[k]|);
    }
  }
}

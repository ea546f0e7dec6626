/** From extracted elements to chunks: join, pack, prefix with the heading, and split what is still too long. */
module ChunkElements {
  import opened ChunkText
  import opened HardSplit
  import opened Headings
  import opened Prelude
  import opened ProsePacking
  import opened ProseUnits
  import opened PythonText
  import opened SourceQuotes
  import opened SourceSpans
  import opened TextRuns

  /** What the chunker is given: the token counter, the matches of its regular expressions, and the table splitter. */
  datatype Tools = Tools(
    count: Counter,
    paragraphs: Cuts,
    sentences: Cuts,
    headingOnly: string -> bool,
    tables: (string, ChunkSpec) -> Result<seq<string>, ChunkError>)
  {
    ghost predicate Valid() {
      CutsTexts(paragraphs) && CutsTexts(sentences)
    }
  }

  /** A chunk before its last split. */
  datatype Record = Record(
    modality: Modality,
    extractor: string,
    routeReason: string,
    text: string,
    sectionPath: Option<string>,
    spans: seq<Span>,
    range: Option<Range>)

  datatype Chunk = Chunk(
    ordinal: nat,
    modality: Modality,
    extractor: string,
    routeReason: string,
    tokens: nat,
    text: string,
    sectionPath: Option<string>,
    spans: seq<Span>,
    continuation: bool)

  type Records = Result<seq<Record>, ChunkError>

  type Chunks = Result<seq<Chunk>, ChunkError>

  // ---------------------------------------------------------------- one element

  function SlicesOf(text: string, ranges: seq<Range>): (parts: seq<string>)
    requires forall k :: 0 <= k < |ranges| ==> Within(ranges[k], text)
    ensures |parts| == |ranges| && forall k :: 0 <= k < |ranges| ==> parts[k] == Slice(text, ranges[k])
  {
    seq(|ranges|, k requires 0 <= k < |ranges| => Slice(text, ranges[k]))
  }

  /** The parts of an element, and where they lie in it unless it is a table. */
  datatype Parted = Parted(parts: seq<string>, ranges: seq<Range>)

  ghost function PartsOf(el: Element, spec: ChunkSpec, t: Tools): (r: Result<Parted, ChunkError>)
    requires t.Valid() && spec.target <= spec.max
    ensures r.Ok? ==> r.value.ranges == [] || |r.value.ranges| == |r.value.parts|
  {
    if el.routeReason == "code_block" then
      var parts :- Pieces(el.text, spec.max, t.count);
      PlacedLength(parts, 0);
      Ok(Parted(parts, Placed(parts, 0)))
    else if el.modality == Table then
      var parts :- t.tables(el.text, spec);
      Ok(Parted(parts, []))
    else
      var ranges :- ProseRanges(el.text, spec, t.count, t.paragraphs, t.sentences);
      ProseRangesHold(el.text, spec, t.count, t.paragraphs, t.sentences);
      Ok(Parted(SlicesOf(el.text, ranges), ranges))
  }

  lemma PlacedLength(parts: seq<string>, offset: nat)
    ensures |Placed(parts, offset)| == |parts|
  {
  }

  /** s.split(" > ") */
  function Sections(path: string): (r: seq<string>)
    decreases |path|
  {
    var k := Find(path, " > ", 0);
    if k < 0 then [path] else [path[..k]] + Sections(path[k + 3..])
  }

  /** Parts that are only a heading the chunks below them carry anyway. */
  predicate Dropped(el: Element, part: string, t: Tools) {
    || (el.modality == Text && el.routeReason != "code_block" && t.headingOnly(part))
    || (&& el.meta.sectionSource == Some("pdf_visible_heading")
        && Strip(part) in Sections(if el.meta.sectionPath.Some? then el.meta.sectionPath.value else ""))
  }

  function Blurred(spans: seq<Span>): seq<Span> {
    seq(|spans|, k requires 0 <= k < |spans| => spans[k].(precision := Some("element_region")))
  }

  /** The record of one part. */
  function RecordOf(el: Element, part: string, range: Option<Range>, prefix: string): Record {
    var record := Record(el.modality, el.extractor, el.routeReason, Prefixed(prefix, part), el.meta.sectionPath, el.meta.spans, None);
    if el.meta.spans == [] || el.modality == Table then record
    else
      var located := if range.Some? then range else FindSourceRange(el.text, part);
      if located.Some? then
        record.(spans := Clip(el.meta.spans, located.value.start, located.value.end), range := located)
      else record.(spans := Blurred(el.meta.spans))
  }

  /** The records of the parts from k on. */
  function PartRecords(el: Element, parts: seq<string>, ranges: seq<Range>, k: nat, prefix: string, t: Tools): seq<Record>
    requires k <= |parts| && (ranges == [] || |ranges| == |parts|)
    decreases |parts| - k
  {
    if k == |parts| then []
    else
      var rest := PartRecords(el, parts, ranges, k + 1, prefix, t);
      if Dropped(el, parts[k], t) then rest
      else [RecordOf(el, parts[k], if ranges != [] then Some(ranges[k]) else None, prefix)] + rest
  }

  predicate Omitted(el: Element) {
    el.meta.omission && Strip(el.text) == ""
  }

  ghost function ElementRecords(el: Element, spec: ChunkSpec, t: Tools): Records
    requires t.Valid() && spec.target <= spec.max
  {
    if Omitted(el) then Ok([])
    else
      var inner :- Reserve(spec, el.meta.sectionPath, t.count);
      ReserveKeepsOrder(spec, el.meta.sectionPath, t.count);
      var split :- PartsOf(el, inner, t);
      var prefix := BoundedHeading(el.meta.sectionPath, spec.max, t.count).value;   // Reserve has found it already
      if split.parts == [] then Ok(PartRecords(el, [el.text], [], 0, prefix, t))
      else Ok(PartRecords(el, split.parts, split.ranges, 0, prefix, t))
  }

  ghost function AllRecords(elements: seq<Element>, spec: ChunkSpec, t: Tools): Records
    requires t.Valid() && spec.target <= spec.max
  {
    if elements == [] then Ok([])
    else
      var first :- ElementRecords(elements[0], spec, t);
      var rest :- AllRecords(elements[1..], spec, t);
      Ok(first + rest)
  }

  // ---------------------------------------------------------------- the last split

  /** The spans of the fragment of record at offset. */
  function FragmentSpans(record: Record, body: string, fragment: string, offset: nat): seq<Span> {
    if record.range.Some? && fragment != body then
      Clip(record.spans, record.range.value.start + offset, record.range.value.start + offset + |fragment|)
    else record.spans
  }

  function ChunkOf(record: Record, prefix: string, body: string, fragment: string, offset: nat, ordinal: nat, count: Counter): Chunk {
    var text := Prefixed(prefix, fragment);
    Chunk(ordinal, record.modality, record.extractor, record.routeReason, count(text), text, record.sectionPath,
          FragmentSpans(record, body, fragment, offset), text != record.text)
  }

  function FragmentChunks(record: Record, prefix: string, body: string, fragments: seq<string>, offset: nat, ordinal: nat, count: Counter): Chunks
    decreases |fragments|
  {
    if fragments == [] then Ok([])
    else if record.modality == Table && fragments[0] != body then Err(TableSplit)
    else
      var rest :- FragmentChunks(record, prefix, body, fragments[1..], offset + |fragments[0]|, ordinal + 1, count);
      Ok([ChunkOf(record, prefix, body, fragments[0], offset, ordinal, count)] + rest)
  }

  function RecordChunks(record: Record, limit: nat, ordinal: nat, count: Counter): Chunks {
    var prefix :- BoundedHeading(record.sectionPath, limit, count);
    var body := Body(record.text, prefix);
    var fragments :- Pieces(body, BodyBudget(prefix, limit, count), count);
    FragmentChunks(record, prefix, body, fragments, 0, ordinal, count)
  }

  function AllChunks(records: seq<Record>, limit: nat, ordinal: nat, count: Counter): Chunks {
    if records == [] then Ok([])
    else
      var first :- RecordChunks(records[0], limit, ordinal, count);
      var rest :- AllChunks(records[1..], limit, ordinal + |first|, count);
      Ok(first + rest)
  }

  predicate WithinLimit(chunks: seq<Chunk>, limit: nat) {
    forall k :: 0 <= k < |chunks| ==> chunks[k].tokens <= limit
  }

  function Limit(spec: ChunkSpec, embedMax: nat): nat {
    if spec.max < embedMax then spec.max else embedMax
  }

  function Bounded(spec: ChunkSpec, embedMax: nat): ChunkSpec {
    var limit := Limit(spec, embedMax);
    ChunkSpec(if spec.target < limit then spec.target else limit, spec.overlap, limit,
              if spec.min < limit - 1 then spec.min else limit - 1)
  }

  /** All chunks of a document, or the first error. */
  ghost function ChunksOf(elements: seq<Element>, spec: ChunkSpec, embedMax: nat, t: Tools): Chunks
    requires t.Valid()
  {
    var limit := Limit(spec, embedMax);
    if limit < 3 || spec.target == 0 then Err(InvalidBudget)
    else
      var records :- AllRecords(JoinTexts(elements), Bounded(spec, embedMax), t);
      var chunks :- AllChunks(records, limit, 0, t.count);
      if WithinLimit(chunks, limit) then Ok(chunks) else Err(BudgetViolated)
  }

  // ---------------------------------------------------------------- the loops

  method MakeRecord(el: Element, part: string, range: Option<Range>, prefix: string) returns (record: Record)
    ensures record == RecordOf(el, part, range, prefix)
  {
    record := Record(el.modality, el.extractor, el.routeReason, Prefixed(prefix, part), el.meta.sectionPath, el.meta.spans, None);
    if el.meta.spans != [] && el.modality != Table {
      var located := range;
      if located.None? {
        located := LocateFragment(el.text, part);
      }
      if located.Some? {
        var clipped := ClipSourceSpans(el.meta.spans, located.value.start, located.value.end);
        record := record.(spans := clipped, range := located);
      } else {
        record := record.(spans := Blurred(el.meta.spans));
      }
    }
  }

  method ElementParts(el: Element, spec: ChunkSpec, t: Tools) returns (result: Result<Parted, ChunkError>)
    requires t.Valid() && spec.target <= spec.max
    ensures result == PartsOf(el, spec, t)
  {
    if el.routeReason == "code_block" {
      var parts :- HardSplit.Split(el.text, spec.max, t.count);
      var ranges := AppendParts([], parts, 0);
      assert [] + Placed(parts, 0) == Placed(parts, 0);
      return Ok(Parted(parts, ranges));
    } else if el.modality == Table {
      var parts :- t.tables(el.text, spec);
      return Ok(Parted(parts, []));
    } else {
      var ranges :- ChunkProse(el.text, spec, t.count, t.paragraphs, t.sentences);
      ProseRangesHold(el.text, spec, t.count, t.paragraphs, t.sentences);
      return Ok(Parted(SlicesOf(el.text, ranges), ranges));
    }
  }

  /** The loop over the parts of one element. */
  method AddParts(el: Element, parts: seq<string>, ranges: seq<Range>, prefix: string, t: Tools, records: seq<Record>)
    returns (more: seq<Record>)
    requires ranges == [] || |ranges| == |parts|
    ensures more == records + PartRecords(el, parts, ranges, 0, prefix, t)
  {
    more := records;
    var index := 0;
    while index < |parts|
      invariant index <= |parts|
      invariant more + PartRecords(el, parts, ranges, index, prefix, t) == records + PartRecords(el, parts, ranges, 0, prefix, t)
    {
      if !Dropped(el, parts[index], t) {
        ghost var rest := PartRecords(el, parts, ranges, index + 1, prefix, t);
        var record := MakeRecord(el, parts[index], if ranges != [] then Some(ranges[index]) else None, prefix);
        assert more + ([record] + rest) == (more + [record]) + rest;
        more := more + [record];
      }
      index := index + 1;
    }
  }

  /** The body of the loop over the joined elements. */
  method AddElement(el: Element, spec: ChunkSpec, t: Tools, records: seq<Record>) returns (result: Records)
    requires t.Valid() && spec.target <= spec.max
    ensures result == Onto(records, ElementRecords(el, spec, t))
  {
    if Omitted(el) {
      OntoEnds(records, Ok([]));
      return Ok(records);
    }
    var inner :- Reserve(spec, el.meta.sectionPath, t.count);
    ReserveKeepsOrder(spec, el.meta.sectionPath, t.count);
    var parted :- ElementParts(el, inner, t);
    var prefix := BoundedHeading(el.meta.sectionPath, spec.max, t.count).value;
    var more;
    if parted.parts == [] {
      more := AddParts(el, [el.text], [], prefix, t, records);
    } else {
      more := AddParts(el, parted.parts, parted.ranges, prefix, t, records);
    }
    return Ok(more);
  }

  method FragmentSpansOf(record: Record, body: string, fragment: string, offset: nat) returns (spans: seq<Span>)
    ensures spans == FragmentSpans(record, body, fragment, offset)
  {
    spans := record.spans;
    if record.range.Some? && fragment != body {
      var start := record.range.value.start + offset;
      spans := ClipSourceSpans(spans, start, start + |fragment|);
    }
  }

  lemma FragmentStep(final: seq<Chunk>, record: Record, prefix: string, body: string, fragments: seq<string>,
                     offset: nat, ordinal: nat, count: Counter)
    requires fragments != []
    ensures Onto(final, FragmentChunks(record, prefix, body, fragments, offset, ordinal, count))
         == if record.modality == Table && fragments[0] != body then Err(TableSplit)
            else Onto(final + [ChunkOf(record, prefix, body, fragments[0], offset, ordinal, count)],
                      FragmentChunks(record, prefix, body, fragments[1..], offset + |fragments[0]|, ordinal + 1, count))
  {
    var rest := FragmentChunks(record, prefix, body, fragments[1..], offset + |fragments[0]|, ordinal + 1, count);
    OntoTwice(final, [ChunkOf(record, prefix, body, fragments[0], offset, ordinal, count)], rest);
  }

  /** The body of the loop over the fragments. */
  method AddFragment(record: Record, prefix: string, body: string, fragment: string, offset: nat, count: Counter, out: seq<Chunk>)
    returns (result: Chunks)
    ensures result == if record.modality == Table && fragment != body then Err(TableSplit)
                      else Ok(out + [ChunkOf(record, prefix, body, fragment, offset, |out|, count)])
  {
    var text := Prefixed(prefix, fragment);
    var spans := FragmentSpansOf(record, body, fragment, offset);
    if record.modality == Table && fragment != body {
      return Err(TableSplit);
    }
    return Ok(out + [Chunk(|out|, record.modality, record.extractor, record.routeReason, count(text), text,
                           record.sectionPath, spans, text != record.text)]);
  }

  /** The loop over the fragments of one record. */
  method AddFragments(record: Record, prefix: string, body: string, fragments: seq<string>, count: Counter, final: seq<Chunk>)
    returns (result: Chunks)
    ensures result == Onto(final, FragmentChunks(record, prefix, body, fragments, 0, |final|, count))
  {
    var out := final;
    var offset: nat, k := 0, 0;
    assert fragments[0..] == fragments;
    while k < |fragments|
      invariant 0 <= k <= |fragments|
      invariant Onto(final, FragmentChunks(record, prefix, body, fragments, 0, |final|, count))
             == Onto(out, FragmentChunks(record, prefix, body, fragments[k..], offset, |out|, count))
    {
      hide FragmentChunks, ChunkOf, Onto;
      FragmentStep(out, record, prefix, body, fragments[k..], offset, |out|, count);
      assert fragments[k..][1..] == fragments[k + 1..];
      out :- AddFragment(record, prefix, body, fragments[k], offset, count, out);
      offset := offset + |fragments[k]|;
      k := k + 1;
    }
    OntoEnds(out, Ok([]));
    return Ok(out);
  }

  method AddRecord(record: Record, limit: nat, count: Counter, final: seq<Chunk>) returns (result: Chunks)
    ensures result == Onto(final, RecordChunks(record, limit, |final|, count))
  {
    var prefix :- BoundedHeading(record.sectionPath, limit, count);
    var body := Body(record.text, prefix);
    var fragments :- HardSplit.Split(body, BodyBudget(prefix, limit, count), count);
    result := AddFragments(record, prefix, body, fragments, count, final);
  }

  lemma RecordsStep(records: seq<Record>, elements: seq<Element>, spec: ChunkSpec, t: Tools)
    requires t.Valid() && spec.target <= spec.max && elements != []
    ensures
      var first := ElementRecords(elements[0], spec, t);
      Onto(records, AllRecords(elements, spec, t))
      == if first.Err? then Err(first.error) else Onto(records + first.value, AllRecords(elements[1..], spec, t))
  {
    var first := ElementRecords(elements[0], spec, t);
    if first.Ok? {
      OntoTwice(records, first.value, AllRecords(elements[1..], spec, t));
    }
  }

  method CollectRecords(elements: seq<Element>, spec: ChunkSpec, t: Tools) returns (result: Records)
    requires t.Valid() && spec.target <= spec.max
    ensures result == AllRecords(elements, spec, t)
  {
    var records: seq<Record> := [];
    OntoEnds(records, AllRecords(elements, spec, t));
    assert elements[0..] == elements;
    for k := 0 to |elements|
      invariant AllRecords(elements, spec, t) == Onto(records, AllRecords(elements[k..], spec, t))
    {
      hide AllRecords, ElementRecords;
      RecordsStep(records, elements[k..], spec, t);
      assert elements[k..][1..] == elements[k + 1..];
      records :- AddElement(elements[k], spec, t, records);
    }
    OntoEnds(records, Ok([]));
    return Ok(records);
  }

  lemma ChunksStep(final: seq<Chunk>, records: seq<Record>, limit: nat, count: Counter)
    requires records != []
    ensures
      var first := RecordChunks(records[0], limit, |final|, count);
      Onto(final, AllChunks(records, limit, |final|, count))
      == if first.Err? then Err(first.error)
         else Onto(final + first.value, AllChunks(records[1..], limit, |final + first.value|, count))
  {
    hide RecordChunks;
    var first := RecordChunks(records[0], limit, |final|, count);
    if first.Ok? {
      assert |final + first.value| == |final| + |first.value|;
      OntoTwice(final, first.value, AllChunks(records[1..], limit, |final + first.value|, count));
    }
  }

  method SplitRecords(records: seq<Record>, limit: nat, count: Counter) returns (result: Chunks)
    ensures result == AllChunks(records, limit, 0, count)
  {
    var final: seq<Chunk> := [];
    OntoEnds(final, AllChunks(records, limit, 0, count));
    assert records[0..] == records;
    for k := 0 to |records|
      invariant AllChunks(records, limit, 0, count) == Onto(final, AllChunks(records[k..], limit, |final|, count))
    {
      hide AllChunks, RecordChunks;
      ChunksStep(final, records[k..], limit, count);
      assert records[k..][1..] == records[k + 1..];
      final :- AddRecord(records[k], limit, count, final);
    }
    OntoEnds(final, Ok([]));
    return Ok(final);
  }

  /** chunk_elements */
  method ChunkAll(elements: seq<Element>, spec: ChunkSpec, embedMax: nat, t: Tools) returns (result: Chunks)
    requires t.Valid()
    ensures result == ChunksOf(elements, spec, embedMax, t)
  {
    var limit := Limit(spec, embedMax);
    if limit < 3 || spec.target == 0 {
      return Err(InvalidBudget);
    }
    var joined := JoinTextElements(elements);
    var records :- CollectRecords(joined, Bounded(spec, embedMax), t);
    var final :- SplitRecords(records, limit, t.count);
    if exists k :: 0 <= k < |final| && final[k].tokens > limit {
      return Err(BudgetViolated);
    }
    return Ok(final);
  }
}

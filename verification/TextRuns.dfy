/** Extracted elements, and the joining of compatible prose before it is packed. */
module TextRuns {
  import opened Prelude
  import opened PythonText
  import opened SourceSpans

  datatype Modality = Text | Image | Table

  /** The metadata keys the chunker reads. A key that is absent, or an empty list of spans, reads as None or []. */
  datatype Meta = Meta(
    place: Place,
    sheet: Option<string>,
    sectionPath: Option<string>,
    section: Option<string>,
    frame: Option<int>,
    omission: bool,
    sectionSource: Option<string>,
    sourceElement: Option<int>,
    sourceElements: seq<int>,
    spans: seq<Span>)

  datatype Element = Element(
    text: string,
    modality: Modality,
    extractor: string,
    routeReason: string,
    order: int,
    meta: Meta)

  // ---------------------------------------------------------------- which elements join

  predicate Prose(e: Element) {
    e.modality == Text && e.routeReason != "code_block" && !e.meta.omission
  }

  predicate SameContext(a: Element, b: Element) {
    && a.extractor == b.extractor && a.routeReason == b.routeReason
    && a.meta.place.page == b.meta.place.page && a.meta.sheet == b.meta.sheet
    && a.meta.sectionPath == b.meta.sectionPath && a.meta.section == b.meta.section && a.meta.frame == b.meta.frame
  }

  function LineHeight(a: Box, b: Box): real {
    var above, below := a.y1 - a.y0, b.y1 - b.y0;
    if above < below then below else above
  }

  /** Lines of one column: not back up the page, and no wider apart than three lines or 36 points. */
  predicate AdjacentLines(a: Meta, b: Meta, above: Box, below: Box) {
    var height := LineHeight(above, below);
    && a.place.page == b.place.page && a.sectionPath == b.sectionPath && a.section == b.section
    && a.place.pageWidth == b.place.pageWidth && a.place.pageHeight == b.place.pageHeight
    && height > 0.0
    && below.y0 >= above.y0 - height * 0.25
    && below.y0 - above.y1 <= (if height * 3.0 < 36.0 then 36.0 else height * 3.0)
  }

  /** Element b continues the run that ends with element a. */
  predicate Continues(a: Element, b: Element) {
    && Prose(a) && Prose(b) && SameContext(a, b)
    && (b.extractor == "pdf_text" && a.meta.place.bbox.Some? && b.meta.place.bbox.Some? ==>
          AdjacentLines(a.meta, b.meta, a.meta.place.bbox.value, b.meta.place.bbox.value))
  }

  /** How many leading elements form the first run. */
  function RunLength(elements: seq<Element>): (n: nat)
    requires elements != []
    ensures 1 <= n <= |elements|
    ensures forall j, k :: 0 <= j && j + 1 == k && k < n ==> Continues(elements[j], elements[k])
    ensures n < |elements| ==> !Continues(elements[n - 1], elements[n])
  {
    if |elements| > 1 && Continues(elements[0], elements[1]) then 1 + RunLength(elements[1..]) else 1
  }

  /** The maximal runs, in order. */
  function Runs(elements: seq<Element>): seq<seq<Element>> {
    if elements == [] then []
    else
      var n := RunLength(elements);
      [elements[..n]] + Runs(elements[n..])
  }

  // ---------------------------------------------------------------- joining one run

  function Separator(run: seq<Element>): string
    requires run != []
  {
    if run[0].extractor == "pdf_text" then "\n" else "\n\n"
  }

  function Texts(run: seq<Element>): (texts: seq<string>)
    ensures |texts| == |run| && forall k :: 0 <= k < |run| ==> texts[k] == run[k].text
  {
    seq(|run|, k requires 0 <= k < |run| => run[k].text)
  }

  function OwnId(e: Element): int {
    if e.meta.sourceElement.Some? then e.meta.sourceElement.value else e.order
  }

  /** The spans of an element; one that has none is a single span of itself. */
  function SpansOf(e: Element): seq<Span> {
    if e.meta.spans != [] then e.meta.spans
    else [Span(OwnId(e), Some(0), Some(|e.text|), Some(e.text), None, None, None, e.meta.place)]
  }

  /** A span of element e once the text of e begins at offset. */
  function Shifted(s: Span, e: Element, offset: nat): Span {
    var start := if s.start.Some? then s.start.value else 0;
    var end := if s.end.Some? then s.end.value else |e.text|;
    s.(start := Some(offset + start), end := Some(offset + end), elementStart := Some(start), elementEnd := Some(end),
       text := Some(PySlice(e.text, start, end)),
       precision := Some(if s.precision.Some? then s.precision.value else "exact_text"))
  }

  function ShiftedAll(spans: seq<Span>, e: Element, offset: nat): seq<Span> {
    seq(|spans|, k requires 0 <= k < |spans| => Shifted(spans[k], e, offset))
  }

  function RunSpans(run: seq<Element>, offset: nat, separator: string): seq<Span> {
    if run == [] then []
    else ShiftedAll(SpansOf(run[0]), run[0], offset)
         + RunSpans(run[1..], offset + |run[0].text| + |separator|, separator)
  }

  function Ids(run: seq<Element>): seq<int> {
    seq(|run|, k requires 0 <= k < |run| => OwnId(run[k]))
  }

  /** A run of one element stays as it is; a longer one becomes one element without locators of its own. */
  function JoinRun(run: seq<Element>): Element
    requires run != []
  {
    if |run| == 1 then run[0]
    else
      var first := run[0];
      var meta := first.meta.(place := first.meta.place.(bbox := None), sourceElement := None,
                              sourceElements := Ids(run), spans := RunSpans(run, 0, Separator(run)));
      first.(text := StrJoin(Separator(run), Texts(run)), meta := meta)
  }

  function Joined(runs: seq<seq<Element>>): seq<Element>
    requires forall k :: 0 <= k < |runs| ==> runs[k] != []
  {
    seq(|runs|, k requires 0 <= k < |runs| => JoinRun(runs[k]))
  }

  lemma {:induction false} RunsNonempty(elements: seq<Element>)
    ensures forall k :: 0 <= k < |Runs(elements)| ==> Runs(elements)[k] != []
  {
    if elements != [] {
      RunsNonempty(elements[RunLength(elements)..]);
    }
  }

  function JoinTexts(elements: seq<Element>): seq<Element> {
    RunsNonempty(elements);
    Joined(Runs(elements))
  }

  // ---------------------------------------------------------------- the loop

  lemma RunSpansAppend(front: seq<Element>, e: Element, offset: nat, separator: string)
    ensures RunSpans(front + [e], offset, separator)
         == RunSpans(front, offset, separator) + ShiftedAll(SpansOf(e), e, offset + Offset(front, separator))
  {
    if front == [] {
      assert front + [e] == [e];
    } else {
      var rest := front[1..];
      assert (front + [e])[1..] == rest + [e];
      RunSpansAppend(rest, e, offset + |front[0].text| + |separator|, separator);
    }
  }

  /** Where the text after the given elements begins. */
  function Offset(front: seq<Element>, separator: string): nat {
    if front == [] then 0 else |front[0].text| + |separator| + Offset(front[1..], separator)
  }

  lemma {:induction false} OffsetAppend(front: seq<Element>, e: Element, separator: string)
    ensures Offset(front + [e], separator) == Offset(front, separator) + |e.text| + |separator|
  {
    if front == [] {
      assert front + [e] == [e];
    } else {
      assert (front + [e])[1..] == front[1..] + [e];
      OffsetAppend(front[1..], e, separator);
    }
  }

  lemma TakeMore(texts: seq<string>, k: nat)
    requires k < |texts|
    ensures texts[..k + 1] == texts[..k] + [texts[k]]
  {
  }

  lemma FlushStep(run: seq<Element>, k: nat, separator: string)
    requires k < |run|
    ensures Offset(run[..k + 1], separator) == Offset(run[..k], separator) + |run[k].text| + |separator|
    ensures RunSpans(run[..k + 1], 0, separator)
         == RunSpans(run[..k], 0, separator) + ShiftedAll(SpansOf(run[k]), run[k], Offset(run[..k], separator))
  {
    hide RunSpans, Offset, ShiftedAll, SpansOf;
    var front, e := run[..k], run[k];
    AppendSpans(front, e, separator);
    OffsetAppend(front, e, separator);
    assert run[..k + 1] == front + [e];
  }

  lemma AppendSpans(front: seq<Element>, e: Element, separator: string)
    ensures RunSpans(front + [e], 0, separator)
         == RunSpans(front, 0, separator) + ShiftedAll(SpansOf(e), e, Offset(front, separator))
  {
    RunSpansAppend(front, e, 0, separator);
  }

  /** The inner function flush of the source, for a run of at least one element. */
  method Flush(run: seq<Element>) returns (element: Element)
    requires run != []
    ensures element == JoinRun(run)
  {
    if |run| == 1 {
      return run[0];
    }
    var separator := Separator(run);
    var text, spans: seq<Span>, offset := [], [], 0;
    for k := 0 to |run|
      invariant text == Texts(run)[..k]
      invariant offset == Offset(run[..k], separator)
      invariant spans == RunSpans(run[..k], 0, separator)
    {
      hide RunSpans, Offset, ShiftedAll, SpansOf;
      FlushStep(run, k, separator);
      TakeMore(Texts(run), k);
      text := text + [run[k].text];
      spans := spans + ShiftedAll(SpansOf(run[k]), run[k], offset);
      offset := offset + |run[k].text| + |separator|;
    }
    assert run[..|run|] == run && text == Texts(run);
    var meta := run[0].meta.(place := run[0].meta.place.(bbox := None), sourceElement := None,
                             sourceElements := Ids(run), spans := spans);
    return run[0].(text := StrJoin(separator, text), meta := meta);
  }

  ghost predicate Chain(run: seq<Element>) {
    forall j, k :: 0 <= j && j + 1 == k && k < |run| ==> Continues(run[j], run[k])
  }

  lemma {:induction false} RunLengthIs(run: seq<Element>, rest: seq<Element>)
    requires run != [] && Chain(run) && (rest != [] ==> !Continues(run[|run| - 1], rest[0]))
    ensures RunLength(run + rest) == |run|
  {
    var all := run + rest;
    if |run| > 1 {
      assert Continues(run[0], run[1]);
      assert all[1..] == run[1..] + rest;
      forall j, k | 0 <= j && j + 1 == k && k < |run[1..]| ensures Continues(run[1..][j], run[1..][k]) {
        assert Continues(run[j + 1], run[k + 1]);
      }
      RunLengthIs(run[1..], rest);
    }
  }

  /** A run that nothing continues is the first of the runs. */
  lemma FirstRun(run: seq<Element>, rest: seq<Element>)
    requires run != [] && Chain(run) && (rest != [] ==> !Continues(run[|run| - 1], rest[0]))
    ensures JoinTexts(run + rest) == [JoinRun(run)] + JoinTexts(rest)
  {
    RunLengthIs(run, rest);
    RunsNonempty(run + rest);
    RunsNonempty(rest);
    assert (run + rest)[..|run|] == run && (run + rest)[|run|..] == rest;
  }

  method FlushTo(output: seq<Element>, run: seq<Element>, ghost rest: seq<Element>) returns (flushed: seq<Element>)
    requires Chain(run) && (run != [] && rest != [] ==> !Continues(run[|run| - 1], rest[0]))
    ensures flushed + JoinTexts(rest) == output + JoinTexts(run + rest)
  {
    if run == [] {
      assert run + rest == rest;
      return output;
    }
    FirstRun(run, rest);
    var element := Flush(run);
    return output + [element];
  }

  ghost predicate OpenRun(run: seq<Element>) {
    Chain(run) && forall k :: 0 <= k < |run| ==> Prose(run[k])
  }

  /** The body of the loop over the elements. */
  method Accept(output: seq<Element>, run: seq<Element>, element: Element, ghost rest: seq<Element>)
    returns (output': seq<Element>, run': seq<Element>)
    requires OpenRun(run)
    ensures OpenRun(run') && output' + JoinTexts(run' + rest) == output + JoinTexts(run + ([element] + rest))
  {
    hide JoinTexts;
    output', run' := output, run;
    if !Prose(element) {
      output' := FlushTo(output, run, [element] + rest);
      FirstRun([element], rest);
      assert [] + rest == rest;
      assert output' + [element] + JoinTexts(rest) == output' + ([element] + JoinTexts(rest));
      return output' + [element], [];
    }
    if run != [] {
      var previous := run[|run| - 1];
      if || !SameContext(previous, element)
         || (&& element.extractor == "pdf_text" && previous.meta.place.bbox.Some? && element.meta.place.bbox.Some?
             && !AdjacentLines(previous.meta, element.meta, previous.meta.place.bbox.value, element.meta.place.bbox.value)) {
        output' := FlushTo(output, run, [element] + rest);
        run' := [];
      }
    }
    assert run' + ([element] + rest) == (run' + [element]) + rest;
    assert [] + ([element] + rest) == [element] + rest;
    run' := run' + [element];
  }

  method JoinTextElements(elements: seq<Element>) returns (output: seq<Element>)
    ensures output == JoinTexts(elements)
  {
    hide JoinTexts, OpenRun;
    output := [];
    var run: seq<Element> := [];
    assert [] + elements[0..] == elements && [] + JoinTexts(elements) == JoinTexts(elements);
    assert OpenRun([]) by { NothingOpen(); }
    for i := 0 to |elements|
      invariant OpenRun(run)
      invariant output + JoinTexts(run + elements[i..]) == JoinTexts(elements)
    {
      assert elements[i..] == [elements[i]] + elements[i + 1..];
      output, run := Accept(output, run, elements[i], elements[i + 1..]);
    }
    output := FlushLast(output, run);
  }

  lemma NothingOpen()
    ensures OpenRun([])
  {
  }

  method FlushLast(output: seq<Element>, run: seq<Element>) returns (flushed: seq<Element>)
    requires OpenRun(run)
    ensures flushed == output + JoinTexts(run + [])
  {
    flushed := FlushTo(output, run, []);
    assert JoinTexts([]) == [];
  }

  // ---------------------------------------------------------------- what joining keeps

  function Flattened(runs: seq<seq<Element>>): seq<Element> {
    if runs == [] then [] else runs[0] + Flattened(runs[1..])
  }

  lemma FlattenedStep(elements: seq<Element>, n: nat, rest: seq<seq<Element>>)
    requires n <= |elements| && Flattened(rest) == elements[n..]
    ensures Flattened([elements[..n]] + rest) == elements
  {
    assert ([elements[..n]] + rest)[1..] == rest;
    assert elements == elements[..n] + elements[n..];
  }

  /** The runs are the elements, in order. */
  lemma {:induction false} RunsPartition(elements: seq<Element>)
    ensures Flattened(Runs(elements)) == elements
  {
    if elements != [] {
      hide Flattened, Continues, RunLength;
      var n := RunLength(elements);
      RunsPartition(elements[n..]);
      FlattenedStep(elements, n, Runs(elements[n..]));
    }
  }

  /** Where element k of a run lies in the joined text. */
  lemma {:induction false} TextAtOffset(run: seq<Element>, k: nat, separator: string)
    requires k < |run|
    ensures
      var at := Offset(run[..k], separator);
      var text := StrJoin(separator, Texts(run));
      at + |run[k].text| <= |text| && text[at..at + |run[k].text|] == run[k].text
  {
    var text := StrJoin(separator, Texts(run));
    assert Texts(run)[1..] == Texts(run[1..]);
    if k > 0 {
      TextAtOffset(run[1..], k - 1, separator);
      assert run[..k][1..] == run[1..][..k - 1];
      var rest := StrJoin(separator, Texts(run[1..]));
      var skip := |run[0].text + separator|;
      assert text == run[0].text + separator + rest;
      assert text[skip..] == rest;
    }
  }

  /** The span carries the characters of element k of the run, and its offsets say where they stand in the joined
      text and where in that element. */
  predicate FromElement(s: Span, run: seq<Element>, k: nat, separator: string)
    requires k < |run|
  {
    && HasOffsets(s) && s.elementStart.Some? && s.elementEnd.Some? && s.text.Some?
    && s.start.value == Offset(run[..k], separator) + s.elementStart.value
    && s.end.value == Offset(run[..k], separator) + s.elementEnd.value
    && s.elementStart.value <= s.elementEnd.value <= |run[k].text|
    && s.text.value == run[k].text[s.elementStart.value..s.elementEnd.value]
  }

  /** The offsets of the span, where missing ones mean all of the text, lie in it, and its text agrees. */
  predicate Matches(s: Span, text: string) {
    && Describes(s, text)
    && (if s.start.Some? then s.start.value else 0) <= (if s.end.Some? then s.end.value else |text|) <= |text|
  }

  predicate SpansMatch(e: Element) {
    forall k :: 0 <= k < |e.meta.spans| ==> Matches(e.meta.spans[k], e.text)
  }

  lemma ShiftedFrom(s: Span, run: seq<Element>, k: nat, separator: string)
    requires k < |run| && Matches(s, run[k].text)
    ensures FromElement(Shifted(s, run[k], Offset(run[..k], separator)), run, k, separator)
  {
  }

  lemma OwnSpansMatch(e: Element, i: nat)
    requires SpansMatch(e) && i < |SpansOf(e)|
    ensures Matches(SpansOf(e)[i], e.text)
  {
    if e.meta.spans == [] {
      assert e.text[0..|e.text|] == e.text;
    }
  }

  lemma ShiftedAllFrom(run: seq<Element>, k: nat, separator: string, s: Span)
    requires k < |run| && SpansMatch(run[k])
    requires s in ShiftedAll(SpansOf(run[k]), run[k], Offset(run[..k], separator))
    ensures FromElement(s, run, k, separator)
  {
    hide Matches, FromElement, Shifted, SpansOf, SpansMatch;
    var spans, at := SpansOf(run[k]), Offset(run[..k], separator);
    var all := ShiftedAll(spans, run[k], at);
    var i :| 0 <= i < |all| && s == all[i];
    OwnSpansMatch(run[k], i);
    ShiftedFrom(spans[i], run, k, separator);
  }

  lemma LastSpans(run: seq<Element>, k: nat, separator: string, s: Span)
    requires k < |run| && SpansMatch(run[k])
    requires s in RunSpans(run[..k + 1], 0, separator)
    ensures s in RunSpans(run[..k], 0, separator) || FromElement(s, run, k, separator)
  {
    hide FromElement, SpansOf, ShiftedAll, SpansMatch, RunSpans;
    assert run[..k + 1] == run[..k] + [run[k]];
    RunSpansAppend(run[..k], run[k], 0, separator);
    if s !in RunSpans(run[..k], 0, separator) {
      ShiftedAllFrom(run, k, separator, s);
    }
  }

  /** The element of the run that a span of the joined element comes from. */
  lemma {:induction false} RunSpansFrom(run: seq<Element>, n: nat, separator: string, s: Span) returns (k: nat)
    requires n <= |run| && forall j :: 0 <= j < |run| ==> SpansMatch(run[j])
    requires s in RunSpans(run[..n], 0, separator)
    ensures k < n && FromElement(s, run, k, separator)
    decreases n
  {
    hide SpansMatch, FromElement, SpansOf, ShiftedAll;
    LastSpans(run, n - 1, separator, s);
    if s in RunSpans(run[..n - 1], 0, separator) {
      k := RunSpansFrom(run, n - 1, separator, s);
    } else {
      k := n - 1;
    }
  }

  lemma SubSlice(text: string, at: nat, length: nat, a: nat, b: nat)
    requires at + length <= |text| && a <= b <= length
    ensures text[at..at + length][a..b] == text[at + a..at + b]
  {
    var part := text[at..at + length];
    forall i | 0 <= i < b - a ensures part[a..b][i] == text[at + a..at + b][i] {
      assert part[a..b][i] == part[a + i];
    }
  }

  /** Such a span describes the joined text. */
  lemma FromElementDescribes(s: Span, run: seq<Element>, k: nat, separator: string)
    requires k < |run| && FromElement(s, run, k, separator)
    ensures Describes(s, StrJoin(separator, Texts(run)))
  {
    TextAtOffset(run, k, separator);
    SubSlice(StrJoin(separator, Texts(run)), Offset(run[..k], separator), |run[k].text|,
             s.elementStart.value, s.elementEnd.value);
  }

  /** Joining: every span of the joined element describes the joined text, and its element offsets lead back to the
      same characters of the element of the run that it came from. */
  lemma JoinedSpansMapBack(run: seq<Element>)
    requires |run| > 1 && forall j :: 0 <= j < |run| ==> SpansMatch(run[j])
    ensures AllDescribe(JoinRun(run).meta.spans, JoinRun(run).text)
    ensures forall s :: s in JoinRun(run).meta.spans ==> exists k :: 0 <= k < |run| && FromElement(s, run, k, Separator(run))
  {
    assert run[..|run|] == run;
    forall s | s in JoinRun(run).meta.spans
      ensures Describes(s, JoinRun(run).text) && exists k :: 0 <= k < |run| && FromElement(s, run, k, Separator(run))
    {
      var k := RunSpansFrom(run, |run|, Separator(run), s);
      FromElementDescribes(s, run, k, Separator(run));
    }
  }

  lemma SpansInclude(run: seq<Element>, k: nat, separator: string, s: Span)
    requires k < |run| && s in ShiftedAll(SpansOf(run[k]), run[k], Offset(run[..k], separator))
    ensures s in RunSpans(run[..k + 1], 0, separator)
  {
    assert run[..k + 1] == run[..k] + [run[k]];
    RunSpansAppend(run[..k], run[k], 0, separator);
  }

  lemma {:induction false} SpansStay(run: seq<Element>, n: nat, m: nat, separator: string, s: Span)
    requires n <= m <= |run| && s in RunSpans(run[..n], 0, separator)
    ensures s in RunSpans(run[..m], 0, separator)
    decreases m - n
  {
    if n < m {
      assert run[..n + 1] == run[..n] + [run[n]];
      RunSpansAppend(run[..n], run[n], 0, separator);
      SpansStay(run, n + 1, m, separator, s);
    }
  }

  /** No element of a run is left without its spans: each of them is in the joined element, moved to where the element
      stands; an element that had none is there as a whole. */
  lemma EveryElementKeepsSpans(run: seq<Element>, k: nat, i: nat)
    requires |run| > 1 && k < |run| && i < |SpansOf(run[k])|
    ensures Shifted(SpansOf(run[k])[i], run[k], Offset(run[..k], Separator(run))) in JoinRun(run).meta.spans
  {
    var s := Shifted(SpansOf(run[k])[i], run[k], Offset(run[..k], Separator(run)));
    assert ShiftedAll(SpansOf(run[k]), run[k], Offset(run[..k], Separator(run)))[i] == s;
    SpansInclude(run, k, Separator(run), s);
    SpansStay(run, k + 1, |run|, Separator(run), s);
    assert run[..|run|] == run;
  }

  // ---------------------------------------------------------------- the members of a run

  lemma {:induction false} RunContext(run: seq<Element>, k: nat)
    requires Chain(run) && |run| > 1 && k < |run|
    ensures Prose(run[k]) && run[k].meta.sectionPath == run[0].meta.sectionPath
  {
    if k > 0 {
      RunContext(run, k - 1);
      assert Continues(run[k - 1], run[k]);
    } else {
      assert Continues(run[0], run[1]);
    }
  }

  lemma {:induction false} RunsAreChains(elements: seq<Element>, g: nat)
    requires g < |Runs(elements)|
    ensures Runs(elements)[g] != [] && Chain(Runs(elements)[g])
  {
    var n := RunLength(elements);
    if g > 0 {
      RunsAreChains(elements[n..], g - 1);
    }
  }

  lemma {:induction false} InSomeRun(elements: seq<Element>, e: Element) returns (g: nat)
    requires e in elements
    ensures g < |Runs(elements)| && e in Runs(elements)[g]
  {
    var n := RunLength(elements);
    if e in elements[..n] {
      g := 0;
    } else {
      assert elements == elements[..n] + elements[n..];
      g := InSomeRun(elements[n..], e);
      g := g + 1;
    }
  }

  // ---------------------------------------------------------------- which elements join, field by field

  /** The larger of the heights of two lines, from their coordinates. */
  function Taller(above: Box, below: Box): real {
    if above.y1 - above.y0 >= below.y1 - below.y0 then above.y1 - above.y0 else below.y1 - below.y0
  }

  /** Two lines of a PDF page follow each other: same page size, the second not above the first by more than a quarter of a
      line, and not below it by more than three lines or 36 points, whichever is more. */
  predicate LinesFollow(a: Meta, b: Meta) {
    a.place.bbox.Some? && b.place.bbox.Some? ==>
      var above, below := a.place.bbox.value, b.place.bbox.value;
      var height := Taller(above, below);
      && a.place.pageWidth == b.place.pageWidth && a.place.pageHeight == b.place.pageHeight
      && height > 0.0 && below.y0 >= above.y0 - height * 0.25
      && (below.y0 - above.y1 <= 36.0 || below.y0 - above.y1 <= height * 3.0)
  }

  /** The fields in which two elements of one text agree. */
  predicate Alike(a: Element, b: Element) {
    && a.extractor == b.extractor && a.routeReason == b.routeReason && a.meta.place.page == b.meta.place.page
    && a.meta.sheet == b.meta.sheet && a.meta.sectionPath == b.meta.sectionPath && a.meta.section == b.meta.section
    && a.meta.frame == b.meta.frame
  }

  predicate IsProse(e: Element) {
    e.modality == Text && e.routeReason != "code_block" && !e.meta.omission
  }

  /** Two neighbouring elements belong to one text. */
  predicate Joinable(a: Element, b: Element) {
    IsProse(a) && IsProse(b) && Alike(a, b) && (b.extractor == "pdf_text" ==> LinesFollow(a.meta, b.meta))
  }

  lemma ContinuesMeans(a: Element, b: Element)
    ensures Continues(a, b) <==> Joinable(a, b)
  {
  }

  lemma {:induction false} RunsEnd(elements: seq<Element>, g: nat)
    requires g + 1 < |Runs(elements)|
    ensures Runs(elements)[g] != [] && Runs(elements)[g + 1] != []
    ensures !Continues(Runs(elements)[g][|Runs(elements)[g]| - 1], Runs(elements)[g + 1][0])
  {
    hide Continues;
    var n := RunLength(elements);
    RunsNonempty(elements);
    if g > 0 {
      RunsEnd(elements[n..], g - 1);
    } else {
      assert Runs(elements)[1] == elements[n..][..RunLength(elements[n..])];
    }
  }

  /** The elements of a run that are not alone in it are prose and agree in all these fields, whatever their distance. */
  lemma {:induction false} RunAlike(run: seq<Element>, j: nat, k: nat)
    requires Chain(run) && j < k < |run|
    ensures IsProse(run[j]) && IsProse(run[k]) && Alike(run[j], run[k])
    decreases k
  {
    ContinuesMeans(run[k - 1], run[k]);
    assert Continues(run[k - 1], run[k]);
    if j < k - 1 {
      RunAlike(run, j, k - 1);
    }
  }

  /** Elements are joined exactly as long as neighbours belong to one text: all of a run do, and where two runs meet they
      do not. */
  lemma RunsExactly(elements: seq<Element>, g: nat)
    requires g < |Runs(elements)|
    ensures
      var run := Runs(elements)[g];
      && run != []
      && (forall j, k :: 0 <= j && j + 1 == k && k < |run| ==> Joinable(run[j], run[k]))
      && (forall j, k :: 0 <= j < k < |run| ==> IsProse(run[j]) && IsProse(run[k]) && Alike(run[j], run[k]))
      && (g + 1 < |Runs(elements)| ==>
            Runs(elements)[g + 1] != [] && !Joinable(run[|run| - 1], Runs(elements)[g + 1][0]))
  {
    hide Joinable, Continues, Runs;
    RunsAreChains(elements, g);
    var run := Runs(elements)[g];
    forall j, k | 0 <= j && j + 1 == k && k < |run| ensures Joinable(run[j], run[k]) {
      ContinuesMeans(run[j], run[k]);
    }
    forall j, k | 0 <= j < k < |run| ensures IsProse(run[j]) && IsProse(run[k]) && Alike(run[j], run[k]) {
      RunAlike(run, j, k);
    }
    if g + 1 < |Runs(elements)| {
      RunsEnd(elements, g);
      ContinuesMeans(run[|run| - 1], Runs(elements)[g + 1][0]);
    }
  }

  // ---------------------------------------------------------------- the joined element, field by field

  /** The span of an element that came with none: all of its text. */
  predicate IsWhole(s: Span, e: Element) {
    && s.element == (match e.meta.sourceElement case Some(id) => id case None => e.order)
    && s.start == Some(0) && s.end == Some(|e.text|) && s.text == Some(e.text) && s.place == e.meta.place
    && s.elementStart == None && s.elementEnd == None && s.precision == None
  }

  /** A span moved to where its element stands: missing offsets are the ends of the text, and the offsets in the element are
      kept beside the new ones. */
  predicate Moved(s: Span, after: Span, e: Element, at: nat) {
    var start, end := match s.start case Some(k) => k case None => 0, match s.end case Some(k) => k case None => |e.text|;
    && after.start == Some(at + start) && after.end == Some(at + end)
    && after.elementStart == Some(start) && after.elementEnd == Some(end)
    && after.text == Some(if start < end && start < |e.text| then e.text[start..if end < |e.text| then end else |e.text|] else "")
    && after.precision == Some(match s.precision case Some(p) => p case None => "exact_text")
    && after.element == s.element && after.place == s.place
  }

  /** The spans of an element in the joined one, in order. */
  lemma MovedSpans(e: Element, at: nat)
    ensures
      var moved := ShiftedAll(SpansOf(e), e, at);
      if |e.meta.spans| > 0 then
        |moved| == |e.meta.spans| && forall i :: 0 <= i < |moved| ==> Moved(e.meta.spans[i], moved[i], e, at)
      else |moved| == 1 && exists whole :: IsWhole(whole, e) && Moved(whole, moved[0], e, at)
  {
    assert |e.meta.spans| == 0 ==> |SpansOf(e)| == 1 && IsWhole(SpansOf(e)[0], e) && Moved(SpansOf(e)[0], ShiftedAll(SpansOf(e), e, at)[0], e, at);
  }

  /** A run of several elements: their texts, lines of a PDF on lines of their own and all others as paragraphs; the fields of
      the first without its place and identity; the identities of all; and the spans of all, one element after the other. */
  lemma JoinedMeans(run: seq<Element>)
    requires |run| > 1
    ensures
      var separator, joined := if run[0].extractor == "pdf_text" then "\n" else "\n\n", JoinRun(run);
      && joined == run[0].(text := StrJoin(separator, Texts(run)),
                           meta := run[0].meta.(place := run[0].meta.place.(bbox := None), sourceElement := None,
                                                sourceElements := joined.meta.sourceElements, spans := joined.meta.spans))
      && |joined.meta.sourceElements| == |run|
      && (forall k :: 0 <= k < |run| ==>
            joined.meta.sourceElements[k] == match run[k].meta.sourceElement case Some(id) => id case None => run[k].order)
      && joined.meta.spans == RunSpans(run[..|run| - 1], 0, separator)
           + ShiftedAll(SpansOf(run[|run| - 1]), run[|run| - 1], Offset(run[..|run| - 1], separator))
  {
    hide StrJoin, RunSpans, ShiftedAll, SpansOf, Offset;
    AppendSpans(run[..|run| - 1], run[|run| - 1], Separator(run));
    assert run == run[..|run| - 1] + [run[|run| - 1]];
  }
}

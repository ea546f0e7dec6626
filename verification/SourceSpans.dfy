/** Source spans: which characters of a text come from where, and what clipping them to an interval does. */
module SourceSpans {
  import opened Prelude

  datatype Box = Box(x0: real, y0: real, x1: real, y1: real)

  datatype Place = Place(page: Option<int>, bbox: Option<Box>, pageWidth: Option<real>, pageHeight: Option<real>)

  /** start and end are offsets into the text the span annotates; elementStart and elementEnd, once they are present,
      are offsets into the element the characters were read from. */
  datatype Span = Span(
    element: int,
    start: Option<nat>,
    end: Option<nat>,
    text: Option<string>,
    elementStart: Option<nat>,
    elementEnd: Option<nat>,
    precision: Option<string>,
    place: Place)

  /** s[a:b] for offsets that need not lie within s */
  function PySlice(s: string, a: nat, b: nat): string {
    var high := Min(b, |s|);
    if a < high then s[a..high] else ""
  }

  /** The part of one span inside [start, end); a span without offsets stays, marked as a whole region. */
  function ClipSpan(span: Span, start: nat, end: nat): Option<Span> {
    if span.start.None? || span.end.None? then Some(span.(precision := Some("element_region")))
    else
      var from, to := Max(span.start.value, start), Min(span.end.value, end);
      if from >= to then None
      else
        var item := span.(start := Some(from), end := Some(to));
        var located :=
          if span.elementStart.None? then item
          else
            var first := span.elementStart.value + from - span.start.value;
            item.(elementStart := Some(first), elementEnd := Some(first + to - from));
        if span.text.None? then Some(located)
        else Some(located.(text := Some(PySlice(span.text.value, from - span.start.value, to - span.start.value))))
  }

  function Kept(span: Option<Span>): seq<Span> {
    if span.Some? then [span.value] else []
  }

  /** All spans clipped, in order. */
  function Clip(spans: seq<Span>, start: nat, end: nat): seq<Span> {
    if spans == [] then [] else Kept(ClipSpan(spans[0], start, end)) + Clip(spans[1..], start, end)
  }

  /** The body of the loop: what to append for one span. */
  method ClipOne(span: Span, start: nat, end: nat) returns (kept: Option<Span>)
    ensures kept == ClipSpan(span, start, end)
  {
    if span.start.None? || span.end.None? {
      return Some(span.(precision := Some("element_region")));
    }
    var from, to := Max(span.start.value, start), Min(span.end.value, end);
    if from >= to {
      return None;
    }
    var item := span.(start := Some(from), end := Some(to));
    if span.elementStart.Some? {
      item := item.(elementStart := Some(span.elementStart.value + from - span.start.value));
      item := item.(elementEnd := Some(item.elementStart.value + to - from));
    }
    if span.text.Some? {
      item := item.(text := Some(PySlice(span.text.value, from - span.start.value, to - span.start.value)));
    }
    return Some(item);
  }

  lemma ClipAppend(front: seq<Span>, span: Span, start: nat, end: nat)
    ensures Clip(front + [span], start, end) == Clip(front, start, end) + Kept(ClipSpan(span, start, end))
  {
    if front == [] {
      assert front + [span] == [span];
    } else {
      assert (front + [span])[1..] == front[1..] + [span];
      ClipAppend(front[1..], span, start, end);
    }
  }

  method ClipSourceSpans(spans: seq<Span>, start: nat, end: nat) returns (clipped: seq<Span>)
    ensures clipped == Clip(spans, start, end)
  {
    clipped := [];
    for k := 0 to |spans|
      invariant clipped == Clip(spans[..k], start, end)
    {
      ClipAppend(spans[..k], spans[k], start, end);
      assert spans[..k + 1] == spans[..k] + [spans[k]];
      var kept := ClipOne(spans[k], start, end);
      if kept.Some? {
        clipped := clipped + [kept.value];
      }
    }
    assert spans[..|spans|] == spans;
  }

  // ---------------------------------------------------------------- what clipping keeps

  predicate HasOffsets(s: Span) {
    s.start.Some? && s.end.Some?
  }

  /** The span describes text: its offsets lie in it, its own text is what stands there, and its element offsets are
      equally far apart. */
  predicate Describes(s: Span, text: string) {
    HasOffsets(s) ==>
      && s.start.value <= s.end.value <= |text|
      && (s.text.Some? ==> s.text.value == text[s.start.value..s.end.value])
      && (s.elementStart.Some? ==> s.elementEnd == Some(s.elementStart.value + s.end.value - s.start.value))
  }

  predicate AllDescribe(spans: seq<Span>, text: string) {
    forall k :: 0 <= k < |spans| ==> Describes(spans[k], text)
  }

  /** Both spans lead from the same characters of the text to the same characters of the element. */
  predicate SameOrigin(c: Span, s: Span) {
    && c.element == s.element && c.place == s.place
    && (HasOffsets(c) <==> HasOffsets(s))
    && (c.text.Some? <==> s.text.Some?)
    && (c.elementStart.Some? <==> s.elementStart.Some?)
    && (HasOffsets(s) && HasOffsets(c) && s.elementStart.Some? ==>
          c.elementStart.value + s.start.value == s.elementStart.value + c.start.value)
  }

  lemma SliceOfSlice(text: string, a: nat, b: nat, from: nat, to: nat)
    requires a <= from < to <= b <= |text|
    ensures PySlice(text[a..b], from - a, to - a) == text[from..to]
  {
    var part := text[a..b];
    forall i | 0 <= i < to - from ensures part[from - a..to - a][i] == text[from..to][i] {
      assert part[from - a..to - a][i] == part[from - a + i];
    }
    assert part[from - a..to - a] == text[from..to];
  }

  /** A clipped span describes the same text, lies inside the interval, and leads to the same source characters. */
  lemma ClipSpanKeeps(s: Span, text: string, start: nat, end: nat)
    requires Describes(s, text) && ClipSpan(s, start, end).Some?
    ensures
      var c := ClipSpan(s, start, end).value;
      && Describes(c, text) && SameOrigin(c, s)
      && (HasOffsets(s) ==> Max(s.start.value, start) == c.start.value < c.end.value == Min(s.end.value, end))
  {
    if HasOffsets(s) && s.text.Some? {
      var c := ClipSpan(s, start, end).value;
      SliceOfSlice(text, s.start.value, s.end.value, c.start.value, c.end.value);
    }
  }

  /** A span of the clipped list comes from one of the spans. */
  lemma {:induction false} ClipFrom(spans: seq<Span>, start: nat, end: nat, c: Span) returns (k: nat)
    requires c in Clip(spans, start, end)
    ensures k < |spans| && ClipSpan(spans[k], start, end) == Some(c)
  {
    if c in Kept(ClipSpan(spans[0], start, end)) {
      k := 0;
    } else {
      var j := ClipFrom(spans[1..], start, end, c);
      k := j + 1;
    }
  }

  /** Clipping twice is clipping to the common part. */
  lemma ClipSpanTwice(s: Span, text: string, a: nat, b: nat, c: nat, d: nat)
    requires HasOffsets(s) && Describes(s, text) && ClipSpan(s, a, b).Some?
    ensures ClipSpan(ClipSpan(s, a, b).value, c, d) == ClipSpan(s, Max(a, c), Min(b, d))
  {
    var once := ClipSpan(s, a, b).value;
    ClipSpanKeeps(s, text, a, b);
    if ClipSpan(once, c, d).Some? {
      ClipSpanKeeps(once, text, c, d);
      ClipSpanKeeps(s, text, Max(a, c), Min(b, d));
    }
  }

  // ---------------------------------------------------------------- splitting an interval

  /** What the span keeps in each of the consecutive pieces that start at offset. */
  function Fragments(s: Span, parts: seq<string>, offset: nat): seq<Span> {
    if parts == [] then []
    else Kept(ClipSpan(s, offset, offset + |parts[0]|)) + Fragments(s, parts[1..], offset + |parts[0]|)
  }

  /** Spans that follow each other without gap or repetition from one offset to another. */
  predicate Chained(spans: seq<Span>, from: nat, to: nat) {
    if spans == [] then from == to
    else
      && HasOffsets(spans[0]) && spans[0].start.value == from < spans[0].end.value
      && Chained(spans[1..], spans[0].end.value, to)
  }

  function TotalLength(parts: seq<string>): nat {
    if parts == [] then 0 else |parts[0]| + TotalLength(parts[1..])
  }

  lemma {:induction false} NoFragments(s: Span, parts: seq<string>, offset: nat)
    requires HasOffsets(s) && s.end.value <= offset
    ensures Fragments(s, parts, offset) == []
  {
    if parts != [] {
      NoFragments(s, parts[1..], offset + |parts[0]|);
    }
  }

  /** The pieces of an interval partition every span that lies in it: nothing of it is lost and nothing repeated. */
  lemma {:induction false} FragmentsPartition(s: Span, parts: seq<string>, offset: nat, from: nat)
    requires HasOffsets(s) && s.start.value <= from && (from == s.start.value || from == offset)
    requires offset <= from <= s.end.value <= offset + TotalLength(parts)
    ensures Chained(Fragments(s, parts, offset), from, s.end.value)
  {
    if parts != [] {
      var next := offset + |parts[0]|;
      if next <= from {
        assert Fragments(s, parts, offset) == Fragments(s, parts[1..], next);
        FragmentsPartition(s, parts[1..], next, from);
      } else if s.end.value <= next {
        NoFragments(s, parts[1..], next);
      } else {
        FragmentsPartition(s, parts[1..], next, next);
      }
    }
  }

  // ---------------------------------------------------------------- clipping, field by field

  /** A slice takes what there is of the stretch. */
  lemma PySliceMeans(s: string, a: nat, b: nat)
    ensures
      var high := if b < |s| then b else |s|;
      PySlice(s, a, b) == if a <= high then s[a..high] else ""
  {
  }

  /** What becomes of a span: without offsets it stays as the region of its whole element; else it goes when it does not meet
      the stretch, and is cut to what it shares with it, its place in its own element and its text along with it. */
  lemma ClipSpanMeans(span: Span, start: nat, end: nat)
    ensures
      var clipped := ClipSpan(span, start, end);
      if span.start == None || span.end == None then
        clipped == Some(Span(span.element, span.start, span.end, span.text, span.elementStart, span.elementEnd, Some("element_region"), span.place))
      else
        var low := if span.start.value > start then span.start.value else start;
        var high := if span.end.value < end then span.end.value else end;
        if low >= high then clipped == None
        else
          && clipped.Some? && clipped.value.start == Some(low) && clipped.value.end == Some(high)
          && clipped.value.element == span.element && clipped.value.place == span.place && clipped.value.precision == span.precision
          && (span.elementStart == None ==> clipped.value.elementStart == None && clipped.value.elementEnd == span.elementEnd)
          && (span.elementStart != None ==>
                && clipped.value.elementStart == Some(span.elementStart.value + (low - span.start.value))
                && clipped.value.elementEnd == Some(span.elementStart.value + (high - span.start.value)))
          && clipped.value.text == (if span.text == None then None else Some(PySlice(span.text.value, low - span.start.value, high - span.start.value)))
  {
    hide PySlice;
  }

  /** All spans are clipped, in their order. */
  lemma {:induction false} ClipMeans(spans: seq<Span>, start: nat, end: nat)
    ensures spans == [] ==> Clip(spans, start, end) == []
    ensures spans != [] ==>
              var first := ClipSpan(spans[0], start, end);
              Clip(spans, start, end) == (if first == None then [] else [first.value]) + Clip(spans[1..], start, end)
  {
    hide ClipSpan;
  }
}

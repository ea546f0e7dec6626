/** The second half of prose chunking: units packed into overlapping intervals of the text. */
module ProsePacking {
  import opened ChunkText
  import opened Prelude
  import opened ProseUnits
  import opened PythonText

  /** Units in order and apart from each other. */
  predicate Apart(text: string, units: seq<Range>) {
    && (forall k :: 0 <= k < |units| ==> Within(units[k], text))
    && (forall j, k :: 0 <= j < k < |units| ==> units[j].end <= units[k].start)
  }

  /** The tokens of the stretch from unit lo through unit i. */
  function Stretch(text: string, units: seq<Range>, lo: nat, i: nat, count: Counter): nat
    requires Apart(text, units) && lo <= i < |units|
  {
    count(text[units[lo].start..units[i].end])
  }

  /** The first unit of the longest run ending with unit last, within units[lo..t], whose suffixes all stay within
      the overlap. */
  function TailStart(text: string, units: seq<Range>, lo: nat, t: nat, last: nat, spec: ChunkSpec, count: Counter): (r: nat)
    requires Apart(text, units) && lo <= t <= last + 1 <= |units|
    ensures lo <= r <= t
    ensures forall k :: r <= k < t ==> Stretch(text, units, k, last, count) <= spec.overlap
    ensures r > lo ==> Stretch(text, units, r - 1, last, count) > spec.overlap
    decreases t
  {
    if lo < t && Stretch(text, units, t - 1, last, count) <= spec.overlap
    then TailStart(text, units, lo, t - 1, last, spec, count)
    else t
  }

  /** The overlap gives way, unit by unit, when it would push the next unit beyond the limit. */
  function Displaced(text: string, units: seq<Range>, lo: nat, i: nat, spec: ChunkSpec, count: Counter): (r: nat)
    requires Apart(text, units) && lo <= i < |units|
    ensures lo <= r <= i
    ensures r < i ==> Stretch(text, units, r, i, count) <= spec.max
    ensures forall k :: lo <= k < r ==> Stretch(text, units, k, i, count) > spec.max
    decreases i - lo
  {
    if lo < i && Stretch(text, units, lo, i, count) > spec.max
    then Displaced(text, units, lo + 1, i, spec, count)
    else lo
  }

  /** Where the interval that receives unit i begins once units[lo..i] have been put out. */
  function NextStart(text: string, units: seq<Range>, lo: nat, i: nat, spec: ChunkSpec, count: Counter): (r: nat)
    requires Apart(text, units) && lo <= i < |units| && 0 < i
    ensures lo <= r <= i
  {
    Displaced(text, units, TailStart(text, units, lo, i, i - 1, spec, count), i, spec, count)
  }

  /** The interval of units[lo..i]. */
  function Whole(units: seq<Range>, lo: nat, i: nat): Range
    requires lo < i <= |units|
  {
    Range(units[lo].start, units[i - 1].end)
  }

  /** The last interval joins the one before it when it is small and the two fit together. */
  function Finish(text: string, out: seq<Range>, last: Range, spec: ChunkSpec, count: Counter): seq<Range>
    requires Within(last, text) && forall k :: 0 <= k < |out| ==> out[k].start <= last.start
  {
    if out != [] && count(Slice(text, last)) < spec.min && count(text[out[|out| - 1].start..last.end]) <= spec.max
    then out[..|out| - 1] + [Range(out[|out| - 1].start, last.end)]
    else out + [last]
  }

  /** Finished intervals do not start after the one being collected. */
  predicate Behind(output: seq<Range>, units: seq<Range>, lo: nat) {
    forall k :: 0 <= k < |output| ==> lo < |units| && output[k].start <= units[lo].start
  }

  /** The packing from unit i on, when units[lo..i] are being collected and out has been put out. */
  function Pack(text: string, units: seq<Range>, lo: nat, i: nat, out: seq<Range>, spec: ChunkSpec, count: Counter): seq<Range>
    requires Apart(text, units) && lo <= i <= |units| && (i > 0 ==> lo < i)
    requires Behind(out, units, lo)
    decreases |units| - i
  {
    if i < |units| then
      if lo < i && Stretch(text, units, lo, i, count) > spec.target then
        Pack(text, units, NextStart(text, units, lo, i, spec, count), i + 1, out + [Whole(units, lo, i)], spec, count)
      else Pack(text, units, lo, i + 1, out, spec, count)
    else if units == [] then out
    else Finish(text, out, Whole(units, lo, i), spec, count)
  }

  /** The intervals the text is cut into, or the character no chunk can hold. */
  ghost function ProseRanges(text: string, spec: ChunkSpec, count: Counter, paragraphs: Cuts, sentences: Cuts): Units
    requires CutsTexts(paragraphs) && CutsTexts(sentences)
  {
    var units :- AllUnits(text, spec, count, paragraphs, sentences);
    UnitsTileText(text, spec, count, paragraphs, sentences);
    Ok(Pack(text, units, 0, 0, [], spec, count))
  }

  // ---------------------------------------------------------------- the loops

  /** The intervals being collected are units lo up to i. */
  ghost predicate Run(text: string, current: seq<Range>, units: seq<Range>, lo: nat, i: nat) {
    Apart(text, units) && lo <= i <= |units| && current == units[lo..i]
  }

  lemma RunEnds(text: string, current: seq<Range>, units: seq<Range>, lo: nat, i: nat)
    requires Run(text, current, units, lo, i) && lo < i
    ensures |current| == i - lo
    ensures current[0] == units[lo] && current[|current| - 1] == units[i - 1]
    ensures current[0].start < current[|current| - 1].end <= |text|
    ensures i < |units| ==> current[0].start < units[i].end <= |text|
  {
  }

  /** One turn of the loop that collects the overlap, as an equation. */
  lemma TailStep(text: string, current: seq<Range>, units: seq<Range>, lo: nat, i: nat, t: nat, spec: ChunkSpec, count: Counter)
    requires Run(text, current, units, lo, i) && t < |current|
    ensures current[t].start < current[|current| - 1].end <= |text|
    ensures [current[t]] + current[t + 1..] == current[t..]
    ensures TailStart(text, units, lo, lo + t + 1, i - 1, spec, count)
         == if count(text[current[t].start..current[|current| - 1].end]) > spec.overlap then lo + t + 1
            else TailStart(text, units, lo, lo + t, i - 1, spec, count)
  {
  }

  /** The complete trailing units that may be repeated. */
  method Tail(text: string, spec: ChunkSpec, count: Counter, current: seq<Range>,
              ghost units: seq<Range>, ghost lo: nat, ghost i: nat)
    returns (tail: seq<Range>)
    requires Run(text, current, units, lo, i) && lo < i
    ensures tail == units[TailStart(text, units, lo, i, i - 1, spec, count)..i]
  {
    var t := |current|;
    tail := [];
    while t > 0
      invariant 0 <= t <= |current| && tail == current[t..]
      invariant TailStart(text, units, lo, i, i - 1, spec, count) == TailStart(text, units, lo, lo + t, i - 1, spec, count)
    {
      TailStep(text, current, units, lo, i, t - 1, spec, count);
      var previous := current[t - 1];
      if count(text[previous.start..current[|current| - 1].end]) > spec.overlap {
        break;
      }
      tail := [previous] + tail;
      t := t - 1;
    }
  }

  /** The overlap without the units that would displace the next one. */
  method Displace(text: string, spec: ChunkSpec, count: Counter, tail: seq<Range>, unit: Range,
                  ghost units: seq<Range>, ghost lo: nat, ghost i: nat)
    returns (kept: seq<Range>)
    requires Run(text, tail, units, lo, i) && i < |units| && unit == units[i]
    ensures kept == units[Displaced(text, units, lo, i, spec, count)..i]
  {
    ghost var from := lo;
    kept := tail;
    if kept != [] { RunEnds(text, kept, units, from, i); }
    while kept != [] && count(text[kept[0].start..unit.end]) > spec.max
      invariant lo <= from && Run(text, kept, units, from, i)
      invariant kept != [] ==> from < i && kept[0] == units[from] && kept[0].start < unit.end <= |text|
      invariant Displaced(text, units, lo, i, spec, count) == Displaced(text, units, from, i, spec, count)
    {
      kept := kept[1..];
      from := from + 1;
      if kept != [] { RunEnds(text, kept, units, from, i); }
    }
  }

  method FinishLast(text: string, output: seq<Range>, last: Range, spec: ChunkSpec, count: Counter)
    returns (r: seq<Range>)
    requires Within(last, text) && forall k :: 0 <= k < |output| ==> output[k].start <= last.start
    ensures r == Finish(text, output, last, spec, count)
  {
    if && output != []
       && count(Slice(text, last)) < spec.min
       && count(text[output[|output| - 1].start..last.end]) <= spec.max {
      r := output[|output| - 1 := Range(output[|output| - 1].start, last.end)];
    } else {
      r := output + [last];
    }
  }

  lemma BehindAfter(text: string, output: seq<Range>, units: seq<Range>, lo: nat, i: nat, next: nat)
    requires Apart(text, units) && lo < i < |units| && lo <= next <= i && Behind(output, units, lo)
    ensures Behind(output + [Whole(units, lo, i)], units, next)
  {
    assert units[lo].start <= units[next].start;
  }

  /** One turn of the packing loop as an equation: unit i closes the collected interval or joins it. */
  lemma PackStep(text: string, units: seq<Range>, lo: nat, i: nat, out: seq<Range>, spec: ChunkSpec, count: Counter)
    requires Apart(text, units) && lo <= i < |units| && (i > 0 ==> lo < i) && Behind(out, units, lo)
    ensures Behind([], units, 0)
    ensures
      if lo < i && Stretch(text, units, lo, i, count) > spec.target then
        var next := NextStart(text, units, lo, i, spec, count);
        && Behind(out + [Whole(units, lo, i)], units, next)
        && Pack(text, units, lo, i, out, spec, count)
        == Pack(text, units, next, i + 1, out + [Whole(units, lo, i)], spec, count)
      else Pack(text, units, lo, i, out, spec, count) == Pack(text, units, lo, i + 1, out, spec, count)
  {
    if lo < i && Stretch(text, units, lo, i, count) > spec.target {
      BehindAfter(text, out, units, lo, i, NextStart(text, units, lo, i, spec, count));
    }
  }

  lemma RunGrows(text: string, current: seq<Range>, units: seq<Range>, lo: nat, i: nat)
    requires Run(text, current, units, lo, i) && i < |units|
    ensures Run(text, current + [units[i]], units, lo, i + 1)
    ensures current == [] <==> lo == i
  {
  }

  /** One turn of the packing loop. */
  method PackUnit(text: string, spec: ChunkSpec, count: Counter, output: seq<Range>, current: seq<Range>, unit: Range,
                  ghost units: seq<Range>, ghost lo: nat, ghost i: nat)
    returns (output': seq<Range>, current': seq<Range>, ghost lo': nat)
    requires Run(text, current, units, lo, i) && i < |units| && unit == units[i] && (i > 0 ==> lo < i)
    requires Behind(output, units, lo)
    ensures lo' <= i && Run(text, current', units, lo', i + 1) && Behind(output', units, lo')
    ensures Pack(text, units, lo, i, output, spec, count) == Pack(text, units, lo', i + 1, output', spec, count)
  {
    PackStep(text, units, lo, i, output, spec, count);
    RunGrows(text, current, units, lo, i);
    output', current', lo' := output, current, lo;
    if current != [] {
      RunEnds(text, current, units, lo, i);
      if count(text[current[0].start..unit.end]) > spec.target {
        output' := output + [Range(current[0].start, current[|current| - 1].end)];
        current' := Tail(text, spec, count, current, units, lo, i);
        ghost var from := TailStart(text, units, lo, i, i - 1, spec, count);
        current' := Displace(text, spec, count, current', unit, units, from, i);
        lo' := Displaced(text, units, from, i, spec, count);
        RunGrows(text, current', units, lo', i);
      }
    }
    current' := current' + [unit];
  }

  lemma PackStarts(text: string, units: seq<Range>)
    requires Apart(text, units)
    ensures Run(text, [], units, 0, 0) && Behind([], units, 0)
  {
  }

  /** What is left to do after the last unit. */
  lemma PackEnds(text: string, current: seq<Range>, units: seq<Range>, lo: nat, out: seq<Range>, spec: ChunkSpec, count: Counter)
    requires Run(text, current, units, lo, |units|) && (|units| > 0 ==> lo < |units|) && Behind(out, units, lo)
    ensures current == [] ==> Pack(text, units, lo, |units|, out, spec, count) == out
    ensures
      current != [] ==>
        var last := Range(current[0].start, current[|current| - 1].end);
        && Within(last, text) && (forall k :: 0 <= k < |out| ==> out[k].start <= last.start)
        && Pack(text, units, lo, |units|, out, spec, count) == Finish(text, out, last, spec, count)
  {
    if current != [] {
      RunEnds(text, current, units, lo, |units|);
    }
  }

  /** The packing loop and the merge after it. */
  method PackUnits(text: string, units: seq<Range>, spec: ChunkSpec, count: Counter) returns (output: seq<Range>)
    requires Apart(text, units)
    ensures output == Pack(text, units, 0, 0, [], spec, count)
  {
    hide *;
    output := [];
    var current: seq<Range>, i := [], 0;
    ghost var lo: nat := 0;
    PackStarts(text, units);
    while i < |units|
      invariant lo <= i <= |units| && Run(text, current, units, lo, i) && (i > 0 ==> lo < i)
      invariant Behind(output, units, lo)
      invariant Pack(text, units, 0, 0, [], spec, count) == Pack(text, units, lo, i, output, spec, count)
    {
      output, current, lo := PackUnit(text, spec, count, output, current, units[i], units, lo, i);
      i := i + 1;
    }
    PackEnds(text, current, units, lo, output, spec, count);
    if current != [] {
      output := FinishLast(text, output, Range(current[0].start, current[|current| - 1].end), spec, count);
    }
  }

  method ChunkProse(text: string, spec: ChunkSpec, count: Counter, paragraphs: Cuts, sentences: Cuts)
    returns (result: Units)
    requires CutsTexts(paragraphs) && CutsTexts(sentences)
    ensures result == ProseRanges(text, spec, count, paragraphs, sentences)
  {
    var units :- BuildUnits(text, spec, count, paragraphs, sentences);
    UnitsTileText(text, spec, count, paragraphs, sentences);
    var output := PackUnits(text, units, spec, count);
    return Ok(output);
  }

  // ---------------------------------------------------------------- what the intervals are

  /** Consecutive intervals move forward, and what they share is within the overlap. */
  predicate Follows(text: string, a: Range, b: Range, spec: ChunkSpec, count: Counter)
    requires Within(a, text) && Within(b, text)
  {
    a.start <= b.start && a.end < b.end && (b.start < a.end ==> count(text[b.start..a.end]) <= spec.overlap)
  }

  ghost predicate Windows(text: string, out: seq<Range>, spec: ChunkSpec, count: Counter) {
    && (forall k :: 0 <= k < |out| ==> Within(out[k], text) && count(Slice(text, out[k])) <= spec.max)
    && (forall j, k :: 0 <= j && j + 1 == k && k < |out| ==> Follows(text, out[j], out[k], spec, count))
  }

  /** Each unit lies within one of the intervals. */
  ghost predicate Holds(out: seq<Range>, u: Range) {
    exists k :: 0 <= k < |out| && out[k].start <= u.start && u.end <= out[k].end
  }

  /** What the packing keeps: finished intervals are good, hold all units before lo, and the interval being collected
      may follow the last of them. */
  ghost predicate Packing(text: string, units: seq<Range>, lo: nat, i: nat, out: seq<Range>, spec: ChunkSpec, count: Counter)
    requires Apart(text, units) && lo <= i <= |units| && (i > 0 ==> lo < i)
  {
    && Windows(text, out, spec, count)
    && (forall k :: 0 <= k < |units| ==> count(Slice(text, units[k])) <= spec.max)
    && (forall k :: 0 <= k < lo ==> Holds(out, units[k]))
    && (i == 0 ==> out == [])
    && (i > 0 ==> Stretch(text, units, lo, i - 1, count) <= spec.max)
    && (i > 0 && out != [] ==> Follows(text, out[|out| - 1], Whole(units, lo, i), spec, count))
  }

  lemma HoldsMore(out: seq<Range>, more: seq<Range>, u: Range)
    requires Holds(out, u)
    ensures Holds(out + more, u)
  {
    var k :| 0 <= k < |out| && out[k].start <= u.start && u.end <= out[k].end;
    assert (out + more)[k] == out[k];
  }

  lemma WholeHolds(text: string, units: seq<Range>, lo: nat, i: nat, k: nat, out: seq<Range>)
    requires Apart(text, units) && lo <= k < i <= |units|
    ensures Holds(out + [Whole(units, lo, i)], units[k])
  {
    var w := Whole(units, lo, i);
    assert (out + [w])[|out|] == w;
    assert w.start <= units[k].start && units[k].end <= w.end;
  }

  lemma WindowsMore(text: string, out: seq<Range>, last: Range, spec: ChunkSpec, count: Counter)
    requires Windows(text, out, spec, count) && Within(last, text) && count(Slice(text, last)) <= spec.max
    requires out != [] ==> Follows(text, out[|out| - 1], last, spec, count)
    ensures Windows(text, out + [last], spec, count)
  {
  }

  /** Putting out the collected units keeps the invariant. */
  lemma FlushKeeps(text: string, units: seq<Range>, lo: nat, i: nat, out: seq<Range>, spec: ChunkSpec, count: Counter)
    requires Apart(text, units) && lo < i < |units| && Packing(text, units, lo, i, out, spec, count)
    ensures Packing(text, units, NextStart(text, units, lo, i, spec, count), i + 1, out + [Whole(units, lo, i)], spec, count)
  {
    var next := NextStart(text, units, lo, i, spec, count);
    var whole := Whole(units, lo, i);
    WindowsMore(text, out, whole, spec, count);
    forall k | 0 <= k < next ensures Holds(out + [whole], units[k]) {
      if k < lo {
        HoldsMore(out, [whole], units[k]);
      } else {
        WholeHolds(text, units, lo, i, k, out);
      }
    }
    assert Stretch(text, units, next, i, count) <= spec.max by {
      if next == i {
        assert text[units[i].start..units[i].end] == Slice(text, units[i]);
      }
    }
    assert next < i ==> Stretch(text, units, next, i - 1, count) <= spec.overlap;
    assert Follows(text, whole, Whole(units, next, i + 1), spec, count);
  }

  /** So does collecting one more unit. */
  lemma CollectKeeps(text: string, units: seq<Range>, lo: nat, i: nat, out: seq<Range>, spec: ChunkSpec, count: Counter)
    requires Apart(text, units) && lo <= i < |units| && (i > 0 ==> lo < i) && spec.target <= spec.max
    requires Packing(text, units, lo, i, out, spec, count)
    requires lo < i ==> Stretch(text, units, lo, i, count) <= spec.target
    ensures Packing(text, units, lo, i + 1, out, spec, count)
  {
    if lo == i {
      assert text[units[i].start..units[i].end] == Slice(text, units[i]);
    }
  }

  lemma FinishKeeps(text: string, units: seq<Range>, lo: nat, out: seq<Range>, spec: ChunkSpec, count: Counter)
    requires Apart(text, units) && lo < |units| && Behind(out, units, lo)
    requires Packing(text, units, lo, |units|, out, spec, count)
    ensures Windows(text, Finish(text, out, Whole(units, lo, |units|), spec, count), spec, count)
    ensures forall k :: 0 <= k < |units| ==> Holds(Finish(text, out, Whole(units, lo, |units|), spec, count), units[k])
  {
    var last := Whole(units, lo, |units|);
    var all := Finish(text, out, last, spec, count);
    if all == out + [last] {
      WindowsMore(text, out, last, spec, count);
      forall k | 0 <= k < |units| ensures Holds(all, units[k]) {
        if k < lo {
          HoldsMore(out, [last], units[k]);
        } else {
          WholeHolds(text, units, lo, |units|, k, out);
        }
      }
    } else {
      var merged := Range(out[|out| - 1].start, last.end);
      var front := out[..|out| - 1];
      assert all == front + [merged];
      assert Windows(text, front, spec, count);
      assert front != [] ==> Follows(text, front[|front| - 1], out[|out| - 1], spec, count);
      WindowsMore(text, front, merged, spec, count);
      forall k | 0 <= k < |units| ensures Holds(all, units[k]) {
        if k < lo {
          var j :| 0 <= j < |out| && out[j].start <= units[k].start && units[k].end <= out[j].end;
          assert all[j].start <= units[k].start && units[k].end <= all[j].end;
        } else {
          assert all[|front|] == merged;
        }
      }
    }
  }

  lemma {:induction false} PackKeeps(text: string, units: seq<Range>, lo: nat, i: nat, out: seq<Range>, spec: ChunkSpec, count: Counter)
    requires Apart(text, units) && lo <= i <= |units| && (i > 0 ==> lo < i) && Behind(out, units, lo)
    requires spec.target <= spec.max && Packing(text, units, lo, i, out, spec, count)
    ensures Windows(text, Pack(text, units, lo, i, out, spec, count), spec, count)
    ensures forall k :: 0 <= k < |units| ==> Holds(Pack(text, units, lo, i, out, spec, count), units[k])
    decreases |units| - i
  {
    hide Packing, Windows, Holds;
    if i < |units| {
      PackStep(text, units, lo, i, out, spec, count);
      if lo < i && Stretch(text, units, lo, i, count) > spec.target {
        FlushKeeps(text, units, lo, i, out, spec, count);
        PackKeeps(text, units, NextStart(text, units, lo, i, spec, count), i + 1, out + [Whole(units, lo, i)], spec, count);
      } else {
        CollectKeeps(text, units, lo, i, out, spec, count);
        PackKeeps(text, units, lo, i + 1, out, spec, count);
      }
    } else if units != [] {
      FinishKeeps(text, units, lo, out, spec, count);
    } else {
      NothingPacked(text, units, out, spec, count);
    }
  }

  lemma NothingPacked(text: string, units: seq<Range>, out: seq<Range>, spec: ChunkSpec, count: Counter)
    requires units == [] && Packing(text, units, 0, 0, out, spec, count)
    ensures Windows(text, out, spec, count)
  {
  }

  lemma HeldUnitsCover(text: string, units: seq<Range>, out: seq<Range>, max: nat, count: Counter)
    requires Tiles(text, units, 0, |text|, max, count) && forall k :: 0 <= k < |units| ==> Holds(out, units[k])
    ensures forall p :: 0 <= p < |text| && !IsSpace(text[p]) ==> Covers(out, p)
  {
    forall p | 0 <= p < |text| && !IsSpace(text[p]) ensures Covers(out, p) {
      var k :| 0 <= k < |units| && units[k].start <= p < units[k].end;
      assert Holds(out, units[k]);
    }
  }

  lemma TilesPack(text: string, units: seq<Range>, spec: ChunkSpec, count: Counter)
    requires Tiles(text, units, 0, |text|, spec.max, count)
    ensures Apart(text, units) && Packing(text, units, 0, 0, [], spec, count)
  {
  }

  /** For every text, boundaries and counter: the intervals move strictly forward, each is within the limit, no two
      consecutive ones share more than the overlap, and together they hold every character but whitespace. */
  lemma ProseRangesHold(text: string, spec: ChunkSpec, count: Counter, paragraphs: Cuts, sentences: Cuts)
    requires CutsTexts(paragraphs) && CutsTexts(sentences) && spec.target <= spec.max
    requires ProseRanges(text, spec, count, paragraphs, sentences).Ok?
    ensures Windows(text, ProseRanges(text, spec, count, paragraphs, sentences).value, spec, count)
    ensures forall p :: 0 <= p < |text| && !IsSpace(text[p]) ==>
              Covers(ProseRanges(text, spec, count, paragraphs, sentences).value, p)
  {
    hide Tiles, Packing, Windows, AllUnits;
    var units := AllUnits(text, spec, count, paragraphs, sentences).value;
    UnitsTileText(text, spec, count, paragraphs, sentences);
    TilesPack(text, units, spec, count);
    PackKeeps(text, units, 0, 0, [], spec, count);
    HeldUnitsCover(text, units, ProseRanges(text, spec, count, paragraphs, sentences).value, spec.max, count);
  }

  // ---------------------------------------------------------------- the packing is greedy

  /** The interval ends with the unit before unit i, and unit i would have taken it above the target. */
  predicate ClosedBy(text: string, units: seq<Range>, r: Range, i: nat, target: nat, count: Counter) {
    0 < i < |units| && units[i - 1].end == r.end && r.start <= units[i].end <= |text| && count(text[r.start..units[i].end]) > target
  }

  ghost predicate Full(text: string, units: seq<Range>, r: Range, target: nat, count: Counter) {
    exists i :: ClosedBy(text, units, r, i, target, count)
  }

  ghost predicate AllFull(text: string, units: seq<Range>, out: seq<Range>, target: nat, count: Counter) {
    forall k :: 0 <= k < |out| ==> Full(text, units, out[k], target, count)
  }

  /** All intervals but the last were closed by the unit that follows them. */
  ghost predicate FullButLast(text: string, units: seq<Range>, out: seq<Range>, target: nat, count: Counter) {
    out == [] || AllFull(text, units, out[..|out| - 1], target, count)
  }

  /** An interval is put out only when the next unit would have taken it above the target. */
  lemma {:induction false} PackIsGreedy(text: string, units: seq<Range>, lo: nat, i: nat, out: seq<Range>, spec: ChunkSpec, count: Counter)
    requires Apart(text, units) && lo <= i <= |units| && (i > 0 ==> lo < i) && Behind(out, units, lo)
    requires AllFull(text, units, out, spec.target, count) && (i == 0 ==> out == [])
    ensures FullButLast(text, units, Pack(text, units, lo, i, out, spec, count), spec.target, count)
    decreases |units| - i
  {
    hide *;
    if i < |units| {
      PackStep(text, units, lo, i, out, spec, count);
      if lo < i && Stretch(text, units, lo, i, count) > spec.target {
        WholeIsFull(text, units, lo, i, out, spec.target, count);
        PackIsGreedy(text, units, NextStart(text, units, lo, i, spec, count), i + 1, out + [Whole(units, lo, i)], spec, count);
      } else {
        PackIsGreedy(text, units, lo, i + 1, out, spec, count);
      }
    } else {
      PackEndIsFull(text, units, lo, out, spec, count);
    }
  }

  lemma PackEndIsFull(text: string, units: seq<Range>, lo: nat, out: seq<Range>, spec: ChunkSpec, count: Counter)
    requires Apart(text, units) && lo <= |units| && (|units| > 0 ==> lo < |units|) && Behind(out, units, lo)
    requires AllFull(text, units, out, spec.target, count) && (units == [] ==> out == [])
    ensures FullButLast(text, units, Pack(text, units, lo, |units|, out, spec, count), spec.target, count)
  {
    hide Full;
    if units != [] {
      FinishIsFull(text, units, out, Whole(units, lo, |units|), spec, count);
    }
  }

  lemma WholeIsFull(text: string, units: seq<Range>, lo: nat, i: nat, out: seq<Range>, target: nat, count: Counter)
    requires Apart(text, units) && lo < i < |units| && Stretch(text, units, lo, i, count) > target
    requires AllFull(text, units, out, target, count)
    ensures AllFull(text, units, out + [Whole(units, lo, i)], target, count)
  {
    hide Full;
    assert Full(text, units, Whole(units, lo, i), target, count) by { ClosedIsFull(text, units, lo, i, target, count); }
  }

  lemma ClosedIsFull(text: string, units: seq<Range>, lo: nat, i: nat, target: nat, count: Counter)
    requires Apart(text, units) && lo < i < |units| && Stretch(text, units, lo, i, count) > target
    ensures Full(text, units, Whole(units, lo, i), target, count)
  {
    assert ClosedBy(text, units, Whole(units, lo, i), i, target, count);
  }

  lemma FinishIsFull(text: string, units: seq<Range>, out: seq<Range>, last: Range, spec: ChunkSpec, count: Counter)
    requires Within(last, text) && forall k :: 0 <= k < |out| ==> out[k].start <= last.start
    requires AllFull(text, units, out, spec.target, count)
    ensures
      var all := Finish(text, out, last, spec, count);
      all != [] && AllFull(text, units, all[..|all| - 1], spec.target, count)
  {
    hide Full;
    var all := Finish(text, out, last, spec, count);
    assert all[..|all| - 1] == if |all| == |out| then out[..|out| - 1] else out;
  }

  /** The whole of prose chunking is greedy. */
  lemma ProseRangesGreedy(text: string, spec: ChunkSpec, count: Counter, paragraphs: Cuts, sentences: Cuts)
    requires CutsTexts(paragraphs) && CutsTexts(sentences)
    requires ProseRanges(text, spec, count, paragraphs, sentences).Ok?
    ensures FullButLast(text, AllUnits(text, spec, count, paragraphs, sentences).value,
                        ProseRanges(text, spec, count, paragraphs, sentences).value, spec.target, count)
  {
    hide Tiles, AllUnits, Pack, FullButLast;
    var units := AllUnits(text, spec, count, paragraphs, sentences).value;
    UnitsTileText(text, spec, count, paragraphs, sentences);
    TilesApart(text, units, Larger(spec), count);
    PackIsGreedy(text, units, 0, 0, [], spec, count);
  }

  lemma TilesApart(text: string, units: seq<Range>, max: nat, count: Counter)
    requires Tiles(text, units, 0, |text|, max, count)
    ensures Apart(text, units)
  {
  }
}

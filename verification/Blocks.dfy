/** Splitting markdown-like text into prose, code and tables, with the headings above each of them. */
module Blocks {
  import opened Prelude
  import opened PythonText
  import opened TableText

  // ---------------------------------------------------------------- headings

  datatype Heading = Heading(level: nat, title: string)

  /** while heading_stack and heading_stack[-1][0] >= level: heading_stack.pop() */
  function PopTo(stack: seq<Heading>, level: nat): (r: seq<Heading>)
    ensures r <= stack && (r != [] ==> r[|r| - 1].level < level)
  {
    if stack != [] && stack[|stack| - 1].level >= level then PopTo(stack[..|stack| - 1], level) else stack
  }

  /** The stack after the given headings. */
  function StackOf(headings: seq<Heading>): seq<Heading> {
    if headings == [] then []
    else
      var last := headings[|headings| - 1];
      PopTo(StackOf(headings[..|headings| - 1]), last.level) + [last]
  }

  /** All later headings are deeper. */
  predicate Covers(h: Heading, later: seq<Heading>) {
    forall k :: 0 <= k < |later| ==> later[k].level > h.level
  }

  /** The headings that every later heading is below, in order. */
  function Survivors(headings: seq<Heading>): seq<Heading> {
    if headings == [] then []
    else if Covers(headings[0], headings[1..]) then [headings[0]] + Survivors(headings[1..])
    else Survivors(headings[1..])
  }

  predicate Deepening(stack: seq<Heading>) {
    forall j, k :: 0 <= j < k < |stack| ==> stack[j].level < stack[k].level
  }

  lemma {:induction false} SurvivorsAmong(headings: seq<Heading>, h: Heading)
    requires h in Survivors(headings)
    ensures h in headings
  {
    if h in Survivors(headings[1..]) {
      SurvivorsAmong(headings[1..], h);
    }
  }

  lemma {:induction false} SurvivorsDeepen(headings: seq<Heading>)
    ensures Deepening(Survivors(headings))
  {
    if headings != [] {
      var rest := Survivors(headings[1..]);
      SurvivorsDeepen(headings[1..]);
      if Covers(headings[0], headings[1..]) {
        forall k | 0 <= k < |rest| ensures headings[0].level < rest[k].level {
          SurvivorsAmong(headings[1..], rest[k]);
        }
      }
    }
  }

  /** Those of the stack that are above the level; popping finds them because the stack deepens. */
  function Above(stack: seq<Heading>, level: nat): seq<Heading> {
    if stack == [] then []
    else if stack[0].level < level then [stack[0]] + Above(stack[1..], level)
    else Above(stack[1..], level)
  }

  lemma {:induction false} AboveAppend(front: seq<Heading>, h: Heading, level: nat)
    ensures Above(front + [h], level) == Above(front, level) + (if h.level < level then [h] else [])
  {
    if front == [] {
      assert front + [h] == [h];
    } else {
      assert (front + [h])[1..] == front[1..] + [h];
      AboveAppend(front[1..], h, level);
    }
  }

  lemma {:induction false} AboveAll(stack: seq<Heading>, level: nat)
    requires forall k :: 0 <= k < |stack| ==> stack[k].level < level
    ensures Above(stack, level) == stack
  {
    if stack != [] {
      AboveAll(stack[1..], level);
      assert stack == [stack[0]] + stack[1..];
    }
  }

  lemma {:induction false} PopIsAbove(stack: seq<Heading>, level: nat)
    requires Deepening(stack)
    ensures PopTo(stack, level) == Above(stack, level)
  {
    if stack != [] {
      var front, top := stack[..|stack| - 1], stack[|stack| - 1];
      assert stack == front + [top];
      if top.level >= level {
        AboveAppend(front, top, level);
        PopIsAbove(front, level);
      } else {
        AboveAll(stack, level);
      }
    }
  }

  lemma {:induction false} SurvivorsAppend(headings: seq<Heading>, h: Heading)
    ensures Survivors(headings + [h]) == Above(Survivors(headings), h.level) + [h]
  {
    if headings == [] {
      assert headings + [h] == [h];
    } else {
      var first, rest := headings[0], headings[1..];
      assert (headings + [h])[1..] == rest + [h];
      SurvivorsAppend(rest, h);
      CoversMore(first, rest, h);
    }
  }

  lemma CoversMore(first: Heading, rest: seq<Heading>, h: Heading)
    ensures Covers(first, rest + [h]) <==> Covers(first, rest) && h.level > first.level
  {
    if Covers(first, rest + [h]) {
      assert forall k :: 0 <= k < |rest| ==> (rest + [h])[k] == rest[k];
      assert (rest + [h])[|rest|] == h;
    }
  }

  /** The heading stack is strictly deepening, and holds exactly the headings below which all later ones are. */
  lemma {:induction false} StackExactly(headings: seq<Heading>)
    ensures StackOf(headings) == Survivors(headings) && Deepening(StackOf(headings))
  {
    SurvivorsDeepen(headings);
    if headings != [] {
      var front, last := headings[..|headings| - 1], headings[|headings| - 1];
      StackExactly(front);
      SurvivorsAppend(front, last);
      assert headings == front + [last];
      PopIsAbove(StackOf(front), last.level);
    }
  }

  const MAX_PATH_DEPTH: nat := 4

  function Titles(stack: seq<Heading>): seq<string> {
    seq(|stack|, k requires 0 <= k < |stack| => stack[k].title)
  }

  /** The breadcrumb: of a deep stack only the first heading and the last three. */
  function PathOf(stack: seq<Heading>): string {
    StrJoin(" > ", Titles(if |stack| > MAX_PATH_DEPTH then [stack[0]] + stack[|stack| - (MAX_PATH_DEPTH - 1)..] else stack))
  }

  // ---------------------------------------------------------------- where blocks begin and end

  /** The regular expressions of the splitter: the fence a line opens, the rule under a table header, and the level of a
      heading line, 0 for all other lines. */
  datatype LineTools = LineTools(fence: string -> Option<string>, isRule: string -> bool, level: string -> nat)

  datatype Kind = Prose | Code | PipeTable | TabTable

  datatype Found = Found(kind: Kind, end: nat)

  function Tabs(line: string): nat {
    if line == "" then 0 else (if line[0] == '\t' then 1 else 0) + Tabs(line[1..])
  }

  /** The columns of a tab-separated row; 0 for any other line. */
  function TabColumns(line: string): nat {
    if Tabs(line) == 0 || Strip(line) == "" then 0 else Tabs(line) + 1
  }

  function FenceEnd(lines: seq<string>, j: nat, fence: string): (end: nat)
    requires j <= |lines|
    ensures j <= end <= |lines|
    decreases |lines| - j
  {
    if j == |lines| then j
    else if fence <= Strip(lines[j]) then j + 1
    else FenceEnd(lines, j + 1, fence)
  }

  function PipeEnd(lines: seq<string>, j: nat): (end: nat)
    requires j <= |lines|
    ensures j <= end <= |lines|
    decreases |lines| - j
  {
    if j < |lines| && Strip(lines[j]) != "" && '|' in lines[j] then PipeEnd(lines, j + 1) else j
  }

  function TabEnd(lines: seq<string>, j: nat, columns: nat): (end: nat)
    requires j <= |lines|
    ensures j <= end <= |lines|
    decreases |lines| - j
  {
    if j < |lines| && TabColumns(lines[j]) == columns then TabEnd(lines, j + 1, columns) else j
  }

  /** The code block or table that begins at line i, if one does. */
  function BlockAt(lines: seq<string>, i: nat, t: LineTools): (b: Option<Found>)
    requires i < |lines|
    ensures b.Some? ==> i < b.value.end <= |lines|
  {
    var line, columns := lines[i], TabColumns(lines[i]);
    if t.fence(line).Some? then Some(Found(Code, FenceEnd(lines, i + 1, t.fence(line).value)))
    else if '|' in line && i + 1 < |lines| && t.isRule(lines[i + 1]) then Some(Found(PipeTable, PipeEnd(lines, i + 2)))
    else if columns >= 2 && i + 2 < |lines| && TabColumns(lines[i + 1]) == columns && TabColumns(lines[i + 2]) == columns then
      Some(Found(TabTable, TabEnd(lines, i + 1, columns)))
    else None
  }

  // ---------------------------------------------------------------- the elements

  /** An element of the split: its text, its section, and its first and last line, counted from 1. */
  datatype Block = Block(
    kind: Kind,
    text: string,
    order: nat,
    section: Option<string>,
    sectionPath: Option<string>,
    first: nat,
    last: nat)

  function SplitTabs(line: string): (cells: seq<string>)
    ensures cells != []
  {
    if line == "" then [""]
    else
      var rest := SplitTabs(line[1..]);
      if line[0] == '\t' then [""] + rest else [[line[0]] + rest[0]] + rest[1..]
  }

  function TabRows(lines: seq<string>): seq<seq<Cell>> {
    seq(|lines|, k requires 0 <= k < |lines| => AsCells(SplitTabs(lines[k])))
  }

  function AsCells(cells: seq<string>): seq<Cell> {
    seq(|cells|, k requires 0 <= k < |cells| => Some(cells[k]))
  }

  function WithCaption(stack: seq<Heading>, md: string): string {
    if stack == [] then md else stack[|stack| - 1].title + "\n" + md
  }

  /** The code block or table of the lines from i to end. */
  function MadeBlock(lines: seq<string>, i: nat, found: Found, stack: seq<Heading>, order: nat): Block
    requires i < found.end <= |lines|
  {
    var body := lines[i..found.end];
    if found.kind == Code then Block(Code, StrJoin("\n", body), order, None, Some(PathOf(stack)), i + 1, found.end)
    else
      var md := if found.kind == TabTable then Markdown(TabRows(body)) else StrJoin("\n", body);
      Block(found.kind, WithCaption(stack, md), order,
            if stack == [] then None else Some(stack[|stack| - 1].title),
            if stack == [] then None else Some(PathOf(stack)), i + 1, found.end)
  }

  /** The prose of the lines from one to another, unless it is blank. */
  function ProseBlock(lines: seq<string>, from: nat, to: nat, stack: seq<Heading>, order: nat): seq<Block>
    requires from <= to <= |lines|
  {
    var text := Strip(StrJoin("\n", lines[from..to]));
    if text == "" then []
    else [Block(Prose, text, order, None, if stack == [] then None else Some(PathOf(stack)), from + 1, to)]
  }

  /** The elements from line i on, when the lines before it from line from are prose not yet put out, and the given
      headings have been seen. */
  function BlocksFrom(lines: seq<string>, i: nat, from: nat, headings: seq<Heading>, order: nat, t: LineTools): seq<Block>
    requires from <= i <= |lines|
    decreases |lines| - i
  {
    var stack := StackOf(headings);
    var prose := ProseBlock(lines, from, i, stack, order);
    var next := order + |prose|;
    if i == |lines| then prose
    else if BlockAt(lines, i, t).Some? then
      var found := BlockAt(lines, i, t).value;
      prose + [MadeBlock(lines, i, found, stack, next)] + BlocksFrom(lines, found.end, found.end, headings, next + 1, t)
    else if t.level(lines[i]) > 0 then
      prose + BlocksFrom(lines, i + 1, i, headings + [Heading(t.level(lines[i]), Strip(lines[i]))], next, t)
    else BlocksFrom(lines, i + 1, from, headings, order, t)
  }

  // ---------------------------------------------------------------- what the ranges keep

  /** Line ranges in order and apart, from one line on. */
  predicate LinesApart(blocks: seq<Block>, from: nat, count: nat) {
    && (forall k :: 0 <= k < |blocks| ==> from < blocks[k].first <= blocks[k].last <= count)
    && (forall j, k :: 0 <= j < k < |blocks| ==> blocks[j].last < blocks[k].first)
  }

  /** Line l, counted from 0, lies in one of the elements. */
  ghost predicate InBlock(blocks: seq<Block>, l: nat) {
    exists k :: 0 <= k < |blocks| && blocks[k].first <= l + 1 <= blocks[k].last
  }

  ghost predicate AllCovered(lines: seq<string>, blocks: seq<Block>, from: nat) {
    forall l :: from <= l < |lines| && Strip(lines[l]) != "" ==> InBlock(blocks, l)
  }

  lemma InBlockConcat(a: seq<Block>, b: seq<Block>, l: nat)
    ensures InBlock(a + b, l) <==> InBlock(a, l) || InBlock(b, l)
  {
    if k :| 0 <= k < |a| && a[k].first <= l + 1 <= a[k].last {
      assert (a + b)[k] == a[k];
    }
    if k :| 0 <= k < |b| && b[k].first <= l + 1 <= b[k].last {
      assert (a + b)[|a| + k] == b[k];
    }
  }

  lemma StripNonblank(s: string, i: nat)
    requires i < |s| && !IsSpace(s[i])
    ensures Strip(s) != ""
  {
    var n := LeadingSpaces(s);
    var tail := s[n..];
    assert n <= i && tail[i - n] == s[i];
  }

  lemma StripBlank(s: string)
    ensures Strip(s) != "" ==> exists i :: 0 <= i < |s| && !IsSpace(s[i])
  {
    if Strip(s) != "" {
      var n := LeadingSpaces(s);
      assert !IsSpace(s[n]);
    }
  }

  lemma {:induction false} JoinHolds(parts: seq<string>, k: nat, separator: string, i: nat) returns (at: nat)
    requires k < |parts| && i < |parts[k]|
    ensures at < |StrJoin(separator, parts)| && StrJoin(separator, parts)[at] == parts[k][i]
  {
    if k == 0 {
      at := i;
    } else {
      var rest := JoinHolds(parts[1..], k - 1, separator, i);
      at := |parts[0]| + |separator| + rest;
    }
  }

  /** Prose with a line that is not blank is put out. */
  lemma ProseCovers(lines: seq<string>, from: nat, to: nat, stack: seq<Heading>, order: nat, l: nat)
    requires from <= l < to <= |lines| && Strip(lines[l]) != ""
    ensures InBlock(ProseBlock(lines, from, to, stack, order), l)
  {
    StripBlank(lines[l]);
    var i :| 0 <= i < |lines[l]| && !IsSpace(lines[l][i]);
    assert lines[from..to][l - from] == lines[l];
    var at := JoinHolds(lines[from..to], l - from, "\n", i);
    StripNonblank(StrJoin("\n", lines[from..to]), at);
    var blocks := ProseBlock(lines, from, to, stack, order);
    assert blocks[0].first <= l + 1 <= blocks[0].last;
  }

  lemma ApartConcat(a: seq<Block>, b: seq<Block>, from: nat, mid: nat, count: nat)
    requires LinesApart(a, from, mid) && LinesApart(b, mid, count) && from <= mid <= count
    ensures LinesApart(a + b, from, count)
  {
  }

  lemma CoveredConcat(lines: seq<string>, a: seq<Block>, b: seq<Block>, from: nat, mid: nat)
    requires forall l :: from <= l < mid && l < |lines| && Strip(lines[l]) != "" ==> InBlock(a, l)
    requires AllCovered(lines, b, mid)
    ensures AllCovered(lines, a + b, from)
  {
    forall l | from <= l < |lines| && Strip(lines[l]) != "" ensures InBlock(a + b, l) {
      InBlockConcat(a, b, l);
    }
  }

  lemma BlockCovers(lines: seq<string>, b: Block, from: nat, to: nat)
    requires b.first == from + 1 && b.last == to
    ensures forall l :: from <= l < to ==> InBlock([b], l)
  {
    forall l | from <= l < to ensures InBlock([b], l) {
      assert [b][0] == b;
    }
  }

  lemma ProseApart(lines: seq<string>, from: nat, to: nat, stack: seq<Heading>, order: nat)
    requires from <= to <= |lines|
    ensures LinesApart(ProseBlock(lines, from, to, stack, order), from, to)
    ensures forall l :: from <= l < to && Strip(lines[l]) != "" ==> InBlock(ProseBlock(lines, from, to, stack, order), l)
  {
    forall l | from <= l < to && Strip(lines[l]) != "" ensures InBlock(ProseBlock(lines, from, to, stack, order), l) {
      ProseCovers(lines, from, to, stack, order, l);
    }
    if from == to {
      assert lines[from..to] == [];
    }
  }

  /** The ranges of the elements are ordered and disjoint, every line that is not blank lies in one of them, and the
      elements are numbered in order. */
  lemma {:induction false} BlocksPartition(lines: seq<string>, i: nat, from: nat, headings: seq<Heading>, order: nat, t: LineTools)
    requires from <= i <= |lines|
    ensures LinesApart(BlocksFrom(lines, i, from, headings, order, t), from, |lines|)
    ensures AllCovered(lines, BlocksFrom(lines, i, from, headings, order, t), from)
    decreases |lines| - i
  {
    hide ProseBlock, MadeBlock, StackOf, BlockAt, LinesApart, AllCovered, InBlock;
    var stack := StackOf(headings);
    var prose := ProseBlock(lines, from, i, stack, order);
    var next := order + |prose|;
    ProseApart(lines, from, i, stack, order);
    if i == |lines| {
      LastCovered(lines, prose, from);
    } else if BlockAt(lines, i, t).Some? {
      var found := BlockAt(lines, i, t).value;
      var rest := BlocksFrom(lines, found.end, found.end, headings, next + 1, t);
      BlocksPartition(lines, found.end, found.end, headings, next + 1, t);
      MadeCovers(lines, i, found, stack, next, rest);
      ApartConcat(prose, [MadeBlock(lines, i, found, stack, next)] + rest, from, i, |lines|);
      CoveredConcat(lines, prose, [MadeBlock(lines, i, found, stack, next)] + rest, from, i);
      assert prose + [MadeBlock(lines, i, found, stack, next)] + rest == prose + ([MadeBlock(lines, i, found, stack, next)] + rest);
    } else if t.level(lines[i]) > 0 {
      var more := headings + [Heading(t.level(lines[i]), Strip(lines[i]))];
      BlocksPartition(lines, i + 1, i, more, next, t);
      ApartConcat(prose, BlocksFrom(lines, i + 1, i, more, next, t), from, i, |lines|);
      CoveredConcat(lines, prose, BlocksFrom(lines, i + 1, i, more, next, t), from, i);
    } else {
      BlocksPartition(lines, i + 1, from, headings, order, t);
    }
  }

  lemma LastCovered(lines: seq<string>, prose: seq<Block>, from: nat)
    requires forall l :: from <= l < |lines| && Strip(lines[l]) != "" ==> InBlock(prose, l)
    ensures AllCovered(lines, prose, from)
  {
  }

  lemma MadeCovers(lines: seq<string>, i: nat, found: Found, stack: seq<Heading>, order: nat, rest: seq<Block>)
    requires i < found.end <= |lines| && LinesApart(rest, found.end, |lines|) && AllCovered(lines, rest, found.end)
    ensures LinesApart([MadeBlock(lines, i, found, stack, order)] + rest, i, |lines|)
    ensures AllCovered(lines, [MadeBlock(lines, i, found, stack, order)] + rest, i)
  {
    var b := MadeBlock(lines, i, found, stack, order);
    BlockCovers(lines, b, i, found.end);
    ApartConcat([b], rest, i, found.end, |lines|);
    CoveredConcat(lines, [b], rest, i, found.end);
  }

  // ---------------------------------------------------------------- the loop

  method FenceBlock(lines: seq<string>, i: nat, fence: string) returns (end: nat)
    requires i < |lines|
    ensures end == FenceEnd(lines, i + 1, fence)
  {
    hide Strip;
    end := i + 1;
    while end < |lines| && !(fence <= Strip(lines[end]))
      invariant i < end <= |lines| && FenceEnd(lines, end, fence) == FenceEnd(lines, i + 1, fence)
    {
      end := end + 1;
    }
    if end < |lines| {
      end := end + 1;
    }
  }

  method PipeRows(lines: seq<string>, i: nat) returns (end: nat)
    requires i + 2 <= |lines|
    ensures end == PipeEnd(lines, i + 2)
  {
    hide Strip;
    end := i + 2;
    while end < |lines| && Strip(lines[end]) != "" && '|' in lines[end]
      invariant i + 2 <= end <= |lines| && PipeEnd(lines, end) == PipeEnd(lines, i + 2)
    {
      end := end + 1;
    }
  }

  method TabRowsEnd(lines: seq<string>, i: nat, columns: nat) returns (end: nat)
    requires i < |lines|
    ensures end == TabEnd(lines, i + 1, columns)
  {
    end := i + 1;
    while end < |lines| && TabColumns(lines[end]) == columns
      invariant i < end <= |lines| && TabEnd(lines, end, columns) == TabEnd(lines, i + 1, columns)
    {
      end := end + 1;
    }
  }

  /** The tests at the head of the loop, and the inner loops. */
  method FindBlock(lines: seq<string>, i: nat, t: LineTools) returns (found: Option<Found>)
    requires i < |lines|
    ensures found == BlockAt(lines, i, t)
  {
    var line := lines[i];
    var fence := t.fence(line);
    if fence.Some? {
      var end := FenceBlock(lines, i, fence.value);
      return Some(Found(Code, end));
    }
    if '|' in line && i + 1 < |lines| && t.isRule(lines[i + 1]) {
      var end := PipeRows(lines, i);
      return Some(Found(PipeTable, end));
    }
    var columns := TabColumns(line);
    if columns >= 2 && i + 2 < |lines| && TabColumns(lines[i + 1]) == columns && TabColumns(lines[i + 2]) == columns {
      var end := TabRowsEnd(lines, i, columns);
      return Some(Found(TabTable, end));
    }
    return None;
  }

  method Pop(stack: seq<Heading>, level: nat) returns (popped: seq<Heading>)
    ensures popped == PopTo(stack, level)
  {
    popped := stack;
    while popped != [] && popped[|popped| - 1].level >= level
      invariant popped <= stack && PopTo(stack, level) == PopTo(popped, level)
    {
      popped := popped[..|popped| - 1];
    }
  }

  lemma StackPush(headings: seq<Heading>, h: Heading)
    ensures StackOf(headings + [h]) == PopTo(StackOf(headings), h.level) + [h]
  {
    assert (headings + [h])[..|headings|] == headings;
  }

  /** What one line does: the elements it puts out, and where the prose and the scan go on. */
  lemma BlocksStep(els: seq<Block>, lines: seq<string>, i: nat, from: nat, headings: seq<Heading>, t: LineTools)
    requires from <= i < |lines|
    ensures
      var stack := StackOf(headings);
      var flushed := els + ProseBlock(lines, from, i, stack, |els|);
      var whole := els + BlocksFrom(lines, i, from, headings, |els|, t);
      if BlockAt(lines, i, t).Some? then
        var found := BlockAt(lines, i, t).value;
        var more := flushed + [MadeBlock(lines, i, found, stack, |flushed|)];
        whole == more + BlocksFrom(lines, found.end, found.end, headings, |more|, t)
      else if t.level(lines[i]) > 0 then
        whole == flushed + BlocksFrom(lines, i + 1, i, headings + [Heading(t.level(lines[i]), Strip(lines[i]))], |flushed|, t)
      else whole == els + BlocksFrom(lines, i + 1, from, headings, |els|, t)
  {
    hide ProseBlock, MadeBlock, StackOf, BlockAt;
  }

  lemma LastBlocks(els: seq<Block>, lines: seq<string>, from: nat, headings: seq<Heading>, t: LineTools)
    requires from <= |lines|
    ensures BlocksFrom(lines, |lines|, from, headings, |els|, t) == ProseBlock(lines, from, |lines|, StackOf(headings), |els|)
  {
  }

  lemma NoHeadingsYet()
    ensures StackOf([]) == []
  {
  }

  /** The loop of split_blocks: the prose not yet put out is always the lines from one line up to the current one. */
  method SplitLinesIntoBlocks(lines: seq<string>, t: LineTools) returns (els: seq<Block>)
    ensures els == BlocksFrom(lines, 0, 0, [], 0, t)
  {
    hide *;
    els := [];
    var stack: seq<Heading>, i: nat, from: nat := [], 0, 0;
    ghost var headings: seq<Heading> := [];
    NoHeadingsYet();
    while i < |lines|
      invariant from <= i <= |lines| && stack == StackOf(headings)
      invariant els + BlocksFrom(lines, i, from, headings, |els|, t) == BlocksFrom(lines, 0, 0, [], 0, t)
      decreases |lines| - i
    {
      BlocksStep(els, lines, i, from, headings, t);
      var found := FindBlock(lines, i, t);
      if found.Some? {
        els := els + ProseBlock(lines, from, i, stack, |els|);
        els := els + [MadeBlock(lines, i, found.value, stack, |els|)];
        i := found.value.end;
        from := i;
      } else {
        var level := t.level(lines[i]);
        if level > 0 {
          els := els + ProseBlock(lines, from, i, stack, |els|);
          from := i;
          ghost var h := Heading(level, Strip(lines[i]));
          StackPush(headings, h);
          stack := Pop(stack, level);
          stack := stack + [Heading(level, Strip(lines[i]))];
          headings := headings + [h];
        }
        i := i + 1;
      }
    }
    LastBlocks(els, lines, from, headings, t);
    els := els + ProseBlock(lines, from, i, stack, |els|);
  }

  // ---------------------------------------------------------------- redundant headings

  /** A heading of its own just before a table that carries it as its caption, in a text: prose and code of an image, which
      have another modality, are not looked at. */
  predicate Redundant(els: seq<Block>, k: nat, textual: bool, headingOnly: string -> bool)
    requires k < |els|
  {
    && textual && els[k].kind in {Prose, Code} && headingOnly(els[k].text)
    && k + 1 < |els| && els[k + 1].kind in {PipeTable, TabTable}
    && els[k + 1].section == Some(Strip(els[k].text))
  }

  /** The elements from k on that are kept. */
  function KeptFrom(els: seq<Block>, k: nat, textual: bool, headingOnly: string -> bool): seq<Block>
    requires k <= |els|
    decreases |els| - k
  {
    if k == |els| then []
    else if Redundant(els, k, textual, headingOnly) then KeptFrom(els, k + 1, textual, headingOnly)
    else [els[k]] + KeptFrom(els, k + 1, textual, headingOnly)
  }

  method DropRedundantHeadings(els: seq<Block>, textual: bool, headingOnly: string -> bool) returns (out: seq<Block>)
    ensures out == KeptFrom(els, 0, textual, headingOnly)
  {
    out := [];
    for k := 0 to |els|
      invariant out + KeptFrom(els, k, textual, headingOnly) == KeptFrom(els, 0, textual, headingOnly)
    {
      if !Redundant(els, k, textual, headingOnly) {
        out := out + [els[k]];
      }
    }
  }

  /** split_blocks, with line numbers */
  method SplitBlocks(text: string, t: LineTools, textual: bool, headingOnly: string -> bool) returns (els: seq<Block>)
    ensures els == KeptFrom(BlocksFrom(SplitLines(text), 0, 0, [], 0, t), 0, textual, headingOnly)
  {
    var all := SplitLinesIntoBlocks(SplitLines(text), t);
    els := DropRedundantHeadings(all, textual, headingOnly);
  }

  /** Tables start with the heading they carry. */
  predicate Captioned(b: Block) {
    b.kind in {PipeTable, TabTable} && b.section.Some? ==> b.section.value + "\n" <= b.text
  }

  lemma {:induction false} TablesCaptioned(lines: seq<string>, i: nat, from: nat, headings: seq<Heading>, order: nat, t: LineTools)
    requires from <= i <= |lines|
    ensures forall b :: b in BlocksFrom(lines, i, from, headings, order, t) ==> Captioned(b)
    decreases |lines| - i
  {
    hide StackOf, BlockAt, MadeBlock, ProseBlock, Captioned;
    var stack := StackOf(headings);
    var prose := ProseBlock(lines, from, i, stack, order);
    var next := order + |prose|;
    ProseCaptioned(lines, from, i, stack, order);
    if i < |lines| {
      if BlockAt(lines, i, t).Some? {
        var found := BlockAt(lines, i, t).value;
        MadeCaptioned(lines, i, found, stack, next);
        TablesCaptioned(lines, found.end, found.end, headings, next + 1, t);
      } else if t.level(lines[i]) > 0 {
        TablesCaptioned(lines, i + 1, i, headings + [Heading(t.level(lines[i]), Strip(lines[i]))], next, t);
      } else {
        TablesCaptioned(lines, i + 1, from, headings, order, t);
      }
    }
  }

  lemma ProseCaptioned(lines: seq<string>, from: nat, to: nat, stack: seq<Heading>, order: nat)
    requires from <= to <= |lines|
    ensures forall b :: b in ProseBlock(lines, from, to, stack, order) ==> Captioned(b)
  {
  }

  lemma MadeCaptioned(lines: seq<string>, i: nat, found: Found, stack: seq<Heading>, order: nat)
    requires i < found.end <= |lines|
    ensures Captioned(MadeBlock(lines, i, found, stack, order))
  {
    hide PathOf;
  }

  /** What is dropped is the caption of the table that follows: no heading is lost. */
  lemma DroppedIsCaption(lines: seq<string>, t: LineTools, textual: bool, headingOnly: string -> bool, k: nat)
    requires k < |BlocksFrom(lines, 0, 0, [], 0, t)| && Redundant(BlocksFrom(lines, 0, 0, [], 0, t), k, textual, headingOnly)
    ensures
      var els := BlocksFrom(lines, 0, 0, [], 0, t);
      k + 1 < |els| && !Redundant(els, k + 1, textual, headingOnly) && Strip(els[k].text) + "\n" <= els[k + 1].text
  {
    var els := BlocksFrom(lines, 0, 0, [], 0, t);
    TablesCaptioned(lines, 0, 0, [], 0, t);
    assert els[k + 1] in els;
  }

  /** Everything else is kept. */
  lemma {:induction false} OthersAreKept(els: seq<Block>, k: nat, from: nat, textual: bool, headingOnly: string -> bool)
    requires from <= k < |els| && !Redundant(els, k, textual, headingOnly)
    ensures els[k] in KeptFrom(els, from, textual, headingOnly)
    decreases k - from
  {
    hide Redundant;
    if from < k {
      OthersAreKept(els, k, from + 1, textual, headingOnly);
    }
  }

  // ---------------------------------------------------------------- section paths

  predicate EndsInText(path: string) {
    path == "" || !IsSpace(path[|path| - 1])
  }

  lemma {:induction false} JoinEndsInText(separator: string, parts: seq<string>)
    requires parts != [] && parts[|parts| - 1] != "" && EndsInText(parts[|parts| - 1])
    ensures StrJoin(separator, parts) != "" && EndsInText(StrJoin(separator, parts))
  {
    if |parts| > 1 {
      JoinEndsInText(separator, parts[1..]);
      var rest := StrJoin(separator, parts[1..]);
      assert StrJoin(separator, parts) == parts[0] + separator + rest;
    }
  }

  /** Headings as the splitter makes them: lines without outer whitespace, not blank. */
  predicate Titled(headings: seq<Heading>) {
    forall k :: 0 <= k < |headings| ==> headings[k].title != "" && EndsInText(headings[k].title)
  }

  lemma PathEndsInText(stack: seq<Heading>)
    requires Titled(stack)
    ensures EndsInText(PathOf(stack))
  {
    if stack != [] {
      var shown := if |stack| > MAX_PATH_DEPTH then [stack[0]] + stack[|stack| - (MAX_PATH_DEPTH - 1)..] else stack;
      JoinEndsInText(" > ", Titles(shown));
    }
  }

  lemma StackTitled(headings: seq<Heading>)
    requires Titled(headings)
    ensures Titled(StackOf(headings))
  {
    StackExactly(headings);
    var stack := StackOf(headings);
    forall k | 0 <= k < |stack| ensures stack[k].title != "" && EndsInText(stack[k].title) {
      SurvivorsAmong(headings, stack[k]);
    }
  }

  /** Heading lines are not blank. */
  ghost predicate HeadingsVisible(t: LineTools) {
    forall line: string :: t.level(line) > 0 ==> Strip(line) != ""
  }

  predicate WellHeaded(blocks: seq<Block>) {
    forall b :: b in blocks && b.sectionPath.Some? ==> EndsInText(b.sectionPath.value)
  }

  lemma WellHeadedConcat(a: seq<Block>, b: seq<Block>)
    requires WellHeaded(a) && WellHeaded(b)
    ensures WellHeaded(a + b)
  {
  }

  /** No section path of the splitter ends with its separator. */
  lemma {:induction false} PathsEndInText(lines: seq<string>, i: nat, from: nat, headings: seq<Heading>, order: nat, t: LineTools)
    requires from <= i <= |lines| && Titled(headings) && HeadingsVisible(t)
    ensures WellHeaded(BlocksFrom(lines, i, from, headings, order, t))
    decreases |lines| - i
  {
    hide StackOf, BlockAt, MadeBlock, ProseBlock, WellHeaded, Titled, HeadingsVisible;
    var stack := StackOf(headings);
    var prose := ProseBlock(lines, from, i, stack, order);
    var next := order + |prose|;
    StackTitled(headings);
    ProseWellHeaded(lines, from, i, stack, order);
    if i < |lines| {
      if BlockAt(lines, i, t).Some? {
        var found := BlockAt(lines, i, t).value;
        MadeWellHeaded(lines, i, found, stack, next);
        PathsEndInText(lines, found.end, found.end, headings, next + 1, t);
        WellHeadedConcat(prose, [MadeBlock(lines, i, found, stack, next)]);
        WellHeadedConcat(prose + [MadeBlock(lines, i, found, stack, next)], BlocksFrom(lines, found.end, found.end, headings, next + 1, t));
      } else if t.level(lines[i]) > 0 {
        TitledMore(headings, lines[i], t);
        var more := headings + [Heading(t.level(lines[i]), Strip(lines[i]))];
        PathsEndInText(lines, i + 1, i, more, next, t);
        WellHeadedConcat(prose, BlocksFrom(lines, i + 1, i, more, next, t));
      } else {
        PathsEndInText(lines, i + 1, from, headings, order, t);
      }
    }
  }

  lemma TitledMore(headings: seq<Heading>, line: string, t: LineTools)
    requires Titled(headings) && HeadingsVisible(t) && t.level(line) > 0
    ensures Titled(headings + [Heading(t.level(line), Strip(line))])
  {
  }

  lemma ProseWellHeaded(lines: seq<string>, from: nat, to: nat, stack: seq<Heading>, order: nat)
    requires from <= to <= |lines| && Titled(stack)
    ensures WellHeaded(ProseBlock(lines, from, to, stack, order))
  {
    hide PathOf;
    PathEndsInText(stack);
  }

  lemma MadeWellHeaded(lines: seq<string>, i: nat, found: Found, stack: seq<Heading>, order: nat)
    requires i < found.end <= |lines| && Titled(stack)
    ensures WellHeaded([MadeBlock(lines, i, found, stack, order)])
  {
    hide PathOf;
    PathEndsInText(stack);
  }
}

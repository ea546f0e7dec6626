/** What the elements of a split text are, from its lines alone: where each begins and ends, its text, and the headings it
    stands under. */
module BlockContents {
  import opened Blocks
  import opened Prelude
  import opened PythonText
  import opened TableText

  // ---------------------------------------------------------------- tab-separated lines

  /** The cells of a line joined by tabs are the line, and none of them holds a tab. */
  lemma {:induction false} CellsOfTabs(line: string)
    ensures StrJoin("\t", SplitTabs(line)) == line
    ensures forall k :: 0 <= k < |SplitTabs(line)| ==> '\t' !in SplitTabs(line)[k]
    ensures Tabs(line) + 1 == |SplitTabs(line)|
  {
    if line != "" {
      var rest := SplitTabs(line[1..]);
      CellsOfTabs(line[1..]);
      assert line == [line[0]] + line[1..];
      if line[0] == '\t' {
        assert ([""] + rest)[1..] == rest;
        assert StrJoin("\t", [""] + rest) == "" + "\t" + StrJoin("\t", rest);
      } else {
        FirstCellGrows(line[0], rest);
      }
    }
  }

  lemma FirstCellGrows(c: char, cells: seq<string>)
    requires cells != []
    ensures StrJoin("\t", [[c] + cells[0]] + cells[1..]) == [c] + StrJoin("\t", cells)
  {
    var grown := [[c] + cells[0]] + cells[1..];
    assert grown[1..] == cells[1..];
    if |cells| > 1 {
      assert StrJoin("\t", cells) == cells[0] + "\t" + StrJoin("\t", cells[1..]);
      assert StrJoin("\t", grown) == [c] + cells[0] + "\t" + StrJoin("\t", cells[1..]);
    }
  }

  /** The rows that are printed of tab-separated lines: the cells of each line. */
  lemma TabRowsMean(lines: seq<string>, k: nat)
    requires k < |lines|
    ensures |TabRows(lines)| == |lines| && |TabRows(lines)[k]| == |SplitTabs(lines[k])|
    ensures forall c :: 0 <= c < |SplitTabs(lines[k])| ==> TabRows(lines)[k][c] == Some(SplitTabs(lines[k])[c])
  {
  }

  /** How many columns a tab-separated line has. */
  function Columns(line: string): nat {
    if '\t' !in line || Strip(line) == "" then 0 else |SplitTabs(line)|
  }

  lemma ColumnsMean(line: string)
    ensures TabColumns(line) == Columns(line)
  {
    hide Strip;
    CellsOfTabs(line);
    NoTabs(line);
  }

  lemma {:induction false} NoTabs(line: string)
    ensures Tabs(line) == 0 <==> '\t' !in line
  {
    if line != "" {
      NoTabs(line[1..]);
      assert line == [line[0]] + line[1..];
    }
  }

  // ---------------------------------------------------------------- where blocks end

  /** A block goes on up to its end: no line before it stops it, and the line at the end does, if there is one. */
  ghost predicate Closes(lines: seq<string>, start: nat, end: nat, stops: string -> bool) {
    && start <= end <= |lines|
    && (forall l :: start <= l < end ==> !stops(lines[l]))
    && (end < |lines| ==> stops(lines[end]))
  }

  ghost predicate ClosedBy(lines: seq<string>, start: nat, close: nat, fence: string) {
    Closes(lines, start, close, line => fence <= Strip(line))
  }

  lemma {:induction false} FenceCloses(lines: seq<string>, j: nat, fence: string) returns (close: nat)
    requires j <= |lines|
    ensures ClosedBy(lines, j, close, fence)
    ensures FenceEnd(lines, j, fence) == if close < |lines| then close + 1 else close
    decreases |lines| - j
  {
    hide Strip;
    if j == |lines| || fence <= Strip(lines[j]) {
      close := j;
    } else {
      close := FenceCloses(lines, j + 1, fence);
    }
  }

  lemma {:induction false} PipeCloses(lines: seq<string>, j: nat)
    requires j <= |lines|
    ensures Closes(lines, j, PipeEnd(lines, j), line => Strip(line) == "" || '|' !in line)
    decreases |lines| - j
  {
    hide Strip;
    if j < |lines| && Strip(lines[j]) != "" && '|' in lines[j] {
      PipeCloses(lines, j + 1);
    }
  }

  lemma {:induction false} TabCloses(lines: seq<string>, j: nat, columns: nat)
    requires j <= |lines|
    ensures Closes(lines, j, TabEnd(lines, j, columns), line => Columns(line) != columns)
    decreases |lines| - j
  {
    hide Columns, TabColumns;
    if j < |lines| {
      ColumnsMean(lines[j]);
      if TabColumns(lines[j]) == columns {
        TabCloses(lines, j + 1, columns);
      }
    }
  }

  ghost predicate FencedUpTo(lines: seq<string>, i: nat, close: nat, t: LineTools)
    requires i < |lines| && t.fence(lines[i]).Some?
  {
    ClosedBy(lines, i + 1, close, t.fence(lines[i]).value)
  }

  /** A fence opens a code block up to the next line that starts with the same fence, which belongs to it, or to the end. */
  ghost predicate CodeFrom(lines: seq<string>, i: nat, end: nat, t: LineTools) {
    && i < end <= |lines| && t.fence(lines[i]).Some?
    && exists close: nat :: FencedUpTo(lines, i, close, t) && end == if close < |lines| then close + 1 else close
  }

  /** A line with a pipe above a rule opens a table, as long as lines are not blank and have a pipe. */
  ghost predicate PipesFrom(lines: seq<string>, i: nat, end: nat, t: LineTools) {
    && i + 1 < |lines| && '|' in lines[i] && t.isRule(lines[i + 1])
    && Closes(lines, i + 2, end, line => Strip(line) == "" || '|' !in line)
  }

  /** Three lines with as many columns, at least two, open a table, as long as lines have as many. */
  ghost predicate TabsFrom(lines: seq<string>, i: nat, end: nat) {
    && i + 2 < |lines| && Columns(lines[i]) >= 2
    && Columns(lines[i + 1]) == Columns(lines[i]) && Columns(lines[i + 2]) == Columns(lines[i])
    && Closes(lines, i + 1, end, line => Columns(line) != Columns(lines[i]))
  }

  ghost predicate Opens(lines: seq<string>, i: nat, t: LineTools)
    requires i < |lines|
  {
    || t.fence(lines[i]).Some?
    || (i + 1 < |lines| && '|' in lines[i] && t.isRule(lines[i + 1]))
    || (i + 2 < |lines| && Columns(lines[i]) >= 2 && Columns(lines[i + 1]) == Columns(lines[i]) && Columns(lines[i + 2]) == Columns(lines[i]))
  }

  /** Which block begins at a line, and where it ends: code before tables, tables with pipes before those with tabs. */
  lemma BlockMeans(lines: seq<string>, i: nat, t: LineTools)
    requires i < |lines|
    ensures BlockAt(lines, i, t).Some? <==> Opens(lines, i, t)
    ensures
      BlockAt(lines, i, t).Some? ==>
        var found := BlockAt(lines, i, t).value;
        if t.fence(lines[i]).Some? then found.kind == Code && CodeFrom(lines, i, found.end, t)
        else if i + 1 < |lines| && '|' in lines[i] && t.isRule(lines[i + 1]) then found.kind == PipeTable && PipesFrom(lines, i, found.end, t)
        else found.kind == TabTable && TabsFrom(lines, i, found.end)
  {
    hide Closes, Columns, TabColumns, FenceEnd, PipeEnd, TabEnd, Strip;
    ColumnsMean(lines[i]);
    if t.fence(lines[i]).Some? {
      var close := FenceCloses(lines, i + 1, t.fence(lines[i]).value);
      assert FencedUpTo(lines, i, close, t);
    }
    if i + 1 < |lines| {
      ColumnsMean(lines[i + 1]);
    }
    if i + 2 <= |lines| {
      PipeCloses(lines, i + 2);
    }
    if i + 2 < |lines| {
      ColumnsMean(lines[i + 2]);
      TabCloses(lines, i + 1, Columns(lines[i]));
    }
  }

  // ---------------------------------------------------------------- headings above a line

  /** The line, counted from 0, lies in a code block or table. */
  ghost predicate Enclosed(blocks: seq<Block>, l: nat) {
    exists k :: 0 <= k < |blocks| && blocks[k].kind != Kind.Prose && blocks[k].first <= l + 1 <= blocks[k].last
  }

  /** The headings on the lines before line l that lie in no code block or table. */
  ghost function HeadingsAbove(lines: seq<string>, blocks: seq<Block>, l: nat, t: LineTools): seq<Heading>
    requires l <= |lines|
  {
    if l == 0 then []
    else HeadingsAbove(lines, blocks, l - 1, t)
         + if t.level(lines[l - 1]) > 0 && !Enclosed(blocks, l - 1) then [Heading(t.level(lines[l - 1]), Strip(lines[l - 1]))] else []
  }

  lemma {:induction false} EnclosedHeadings(lines: seq<string>, blocks: seq<Block>, i: nat, l: nat, t: LineTools)
    requires i <= l <= |lines| && forall x :: i <= x < l ==> Enclosed(blocks, x)
    ensures HeadingsAbove(lines, blocks, l, t) == HeadingsAbove(lines, blocks, i, t)
    decreases l - i
  {
    hide Enclosed;
    if i < l {
      EnclosedHeadings(lines, blocks, i, l - 1, t);
    }
  }

  // ---------------------------------------------------------------- what an element holds

  /** The path of the headings: all titles of up to four, of more the first and the last three. */
  function Breadcrumb(stack: seq<Heading>): string {
    var n := |stack|;
    if n <= 4 then StrJoin(" > ", seq(n, k requires 0 <= k < n => stack[k].title))
    else StrJoin(" > ", [stack[0].title, stack[n - 3].title, stack[n - 2].title, stack[n - 1].title])
  }

  lemma BreadcrumbIsPath(stack: seq<Heading>)
    ensures PathOf(stack) == Breadcrumb(stack)
  {
    hide StrJoin;
    var n := |stack|;
    if n <= 4 {
      assert Titles(stack) == seq(n, k requires 0 <= k < n => stack[k].title);
    } else {
      FourTitles(stack);
    }
  }

  lemma FourTitles(stack: seq<Heading>)
    requires |stack| > 4
    ensures
      var n := |stack|;
      Titles([stack[0]] + stack[n - 3..]) == [stack[0].title, stack[n - 3].title, stack[n - 2].title, stack[n - 1].title]
  {
    var n := |stack|;
    var shown := [stack[0]] + stack[n - 3..];
    assert shown == [stack[0], stack[n - 3], stack[n - 2], stack[n - 1]];
  }

  /** An element is its lines under its headings: prose stripped and not blank, code as it is, tables as they are or printed
      from their tabs, below the nearest heading as a caption. */
  ghost predicate OfLines(b: Block, lines: seq<string>, stack: seq<Heading>) {
    && 1 <= b.first <= b.last <= |lines|
    && var body := lines[b.first - 1..b.last];
       var n := |stack|;
       var table := if b.kind == PipeTable then StrJoin("\n", body) else Markdown(TabRows(body));
       match b.kind
       case Prose =>
         && b.text == Strip(StrJoin("\n", body)) && b.text != "" && b.section == None
         && b.sectionPath == if n == 0 then None else Some(Breadcrumb(stack))
       case Code => b.text == StrJoin("\n", body) && b.section == None && b.sectionPath == Some(Breadcrumb(stack))
       case _ =>
         && b.text == (if n == 0 then table else stack[n - 1].title + "\n" + table)
         && b.section == (if n == 0 then None else Some(stack[n - 1].title))
         && b.sectionPath == (if n == 0 then None else Some(Breadcrumb(stack)))
  }

  lemma ProseOfLines(lines: seq<string>, from: nat, to: nat, stack: seq<Heading>, order: nat)
    requires from <= to <= |lines|
    ensures |ProseBlock(lines, from, to, stack, order)| <= 1
    ensures forall b :: b in ProseBlock(lines, from, to, stack, order) ==>
              OfLines(b, lines, stack) && b.order == order && b.kind == Kind.Prose && b.first == from + 1 && b.last == to && from < to
  {
    hide Strip, PathOf, Breadcrumb;
    BreadcrumbIsPath(stack);
    if from == to {
      assert lines[from..to] == [];
      BlankIsBlank();
    }
  }

  lemma BlankIsBlank()
    ensures Strip(StrJoin("\n", [])) == ""
  {
  }

  lemma MadeOfLines(lines: seq<string>, i: nat, found: Found, stack: seq<Heading>, order: nat)
    requires i < found.end <= |lines| && found.kind != Kind.Prose
    ensures
      var b := MadeBlock(lines, i, found, stack, order);
      OfLines(b, lines, stack) && b.order == order && b.kind == found.kind && b.first == i + 1 && b.last == found.end
  {
    hide PathOf, Breadcrumb, Markdown, TabRows, StrJoin;
    BreadcrumbIsPath(stack);
  }

  // ---------------------------------------------------------------- where elements are

  /** Code blocks and tables are where one begins, up to its end. Prose has a heading at most on its first line, no block
      begins in it, and it begins with the text, behind a block, or with a heading. */
  ghost predicate WellPlaced(b: Block, lines: seq<string>, blocks: seq<Block>, t: LineTools) {
    && 1 <= b.first <= b.last <= |lines|
    && (b.kind != Kind.Prose ==> BlockAt(lines, b.first - 1, t) == Some(Found(b.kind, b.last)))
    && (b.kind == Kind.Prose ==>
          && (forall l :: b.first <= l < b.last ==> t.level(lines[l]) == 0)
          && (forall l: nat :: b.first - 1 <= l < b.last ==> BlockAt(lines, l, t) == None)
          && (b.first == 1 || Enclosed(blocks, b.first - 2) || t.level(lines[b.first - 1]) > 0))
  }

  /** The element is numbered, made of its lines under the headings above its end, and where it should be. */
  ghost predicate Right(blocks: seq<Block>, k: nat, lines: seq<string>, t: LineTools)
    requires k < |blocks|
  {
    && blocks[k].order == k && WellPlaced(blocks[k], lines, blocks, t)
    && OfLines(blocks[k], lines, StackOf(HeadingsAbove(lines, blocks, blocks[k].last, t)))
  }

  /** The scan has come to line i: prose has been collected from one line on, and the headings above are known. */
  ghost predicate Scanned(lines: seq<string>, i: nat, from: nat, headings: seq<Heading>, done: nat, all: seq<Block>, t: LineTools) {
    && from <= i <= |lines| && done <= |all|
    && (forall k :: 0 <= k < done ==> all[k].last <= from)
    && headings == HeadingsAbove(lines, all, i, t)
    && (forall l :: from < l < i ==> t.level(lines[l]) == 0)
    && (forall l: nat :: from <= l < i ==> BlockAt(lines, l, t) == None)
    && (from == 0 || Enclosed(all, from - 1) || (from < i && t.level(lines[from]) > 0))
  }

  /** The code blocks and tables still to come begin at line i or later. */
  lemma {:induction false} LaterBlocks(lines: seq<string>, i: nat, from: nat, headings: seq<Heading>, order: nat, t: LineTools)
    requires from <= i <= |lines|
    ensures forall b :: b in BlocksFrom(lines, i, from, headings, order, t) && b.kind != Kind.Prose ==> i < b.first
    decreases |lines| - i
  {
    hide OfLines, BlockAt, ProseBlock, MadeBlock, BlocksFrom, StackOf;
    var stack := StackOf(headings);
    var prose := ProseBlock(lines, from, i, stack, order);
    var next := order + |prose|;
    ProseOfLines(lines, from, i, stack, order);
    Unfolded(lines, i, from, headings, order, t);
    if i < |lines| {
      if BlockAt(lines, i, t).Some? {
        var found := BlockAt(lines, i, t).value;
        FoundKind(lines, i, t);
        MadeOfLines(lines, i, found, stack, next);
        LaterBlocks(lines, found.end, found.end, headings, next + 1, t);
      } else if t.level(lines[i]) > 0 {
        LaterBlocks(lines, i + 1, i, headings + [Heading(t.level(lines[i]), Strip(lines[i]))], next, t);
      } else {
        LaterBlocks(lines, i + 1, from, headings, order, t);
      }
    }
  }

  /** A prose element that is put out at line i. */
  lemma ProseRight(lines: seq<string>, i: nat, from: nat, headings: seq<Heading>, all: seq<Block>, k: nat, t: LineTools)
    requires Scanned(lines, i, from, headings, k, all, t) && k < |all|
    requires ProseBlock(lines, from, i, StackOf(headings), k) == [all[k]]
    ensures Right(all, k, lines, t) && all[k].last == i && all[k].kind == Kind.Prose
  {
    hide OfLines, BlockAt, Enclosed, HeadingsAbove, StackOf, ProseBlock;
    ProseOfLines(lines, from, i, StackOf(headings), k);
    assert all[k] in ProseBlock(lines, from, i, StackOf(headings), k);
  }

  lemma FoundKind(lines: seq<string>, i: nat, t: LineTools)
    requires i < |lines|
    ensures BlockAt(lines, i, t).Some? ==> BlockAt(lines, i, t).value.kind != Kind.Prose
  {
    hide FenceEnd, PipeEnd, TabEnd, TabColumns;
  }

  /** A code block or table that is put out at line i. */
  lemma MadeRight(lines: seq<string>, i: nat, headings: seq<Heading>, all: seq<Block>, k: nat, t: LineTools)
    requires i < |lines| && BlockAt(lines, i, t).Some? && k < |all| && headings == HeadingsAbove(lines, all, i, t)
    requires all[k] == MadeBlock(lines, i, BlockAt(lines, i, t).value, StackOf(headings), k)
    ensures Right(all, k, lines, t) && all[k].last == BlockAt(lines, i, t).value.end
    ensures HeadingsAbove(lines, all, all[k].last, t) == headings && Enclosed(all, all[k].last - 1)
  {
    hide OfLines, BlockAt, HeadingsAbove, StackOf, MadeBlock;
    var found := BlockAt(lines, i, t).value;
    FoundKind(lines, i, t);
    MadeOfLines(lines, i, found, StackOf(headings), k);
    forall x | i <= x < found.end ensures Enclosed(all, x) {
      assert all[k].kind != Kind.Prose && all[k].first <= x + 1 <= all[k].last;
    }
    EnclosedHeadings(lines, all, i, found.end, t);
  }

  /** What stands from line i on does not enclose line i. */
  lemma NotEnclosed(lines: seq<string>, i: nat, headings: seq<Heading>, all: seq<Block>, done: nat, t: LineTools)
    requires i < |lines| && done <= |all| && all[done..] == BlocksFrom(lines, i + 1, i, headings, done, t)
    requires forall k :: 0 <= k < done ==> all[k].last <= i
    ensures !Enclosed(all, i)
  {
    hide BlocksFrom;
    LaterBlocks(lines, i + 1, i, headings, done, t);
    forall k | 0 <= k < |all| ensures all[k].kind != Kind.Prose ==> all[k].last <= i || i + 1 < all[k].first {
      if k >= done {
        assert all[k] == all[done..][k - done];
      }
    }
  }

  lemma ScannedSo(lines: seq<string>, i: nat, from: nat, headings: seq<Heading>, done: nat, all: seq<Block>, t: LineTools)
    requires Scanned(lines, i, from, headings, done, all, t)
    ensures from <= i <= |lines| && done <= |all| && headings == HeadingsAbove(lines, all, i, t)
  {
    hide HeadingsAbove, BlockAt, Enclosed;
  }

  /** How the scan goes on behind a block, with a heading, and with any other line. */
  lemma BehindBlock(lines: seq<string>, i: nat, from: nat, headings: seq<Heading>, done: nat, all: seq<Block>, t: LineTools, next: nat)
    requires Scanned(lines, i, from, headings, done, all, t) && i < |lines| && BlockAt(lines, i, t).Some?
    requires done <= next <= done + 1 && next < |all| && (next == done + 1 ==> all[done].last == i)
    requires all[next].last == BlockAt(lines, i, t).value.end && Enclosed(all, all[next].last - 1)
    requires HeadingsAbove(lines, all, all[next].last, t) == headings
    ensures Scanned(lines, all[next].last, all[next].last, headings, next + 1, all, t)
  {
    hide HeadingsAbove, BlockAt, Enclosed;
  }

  lemma BehindHeading(lines: seq<string>, i: nat, from: nat, headings: seq<Heading>, done: nat, all: seq<Block>, t: LineTools, next: nat)
    requires Scanned(lines, i, from, headings, done, all, t) && i < |lines| && BlockAt(lines, i, t).None? && t.level(lines[i]) > 0
    requires done <= next <= done + 1 && next <= |all| && (next == done + 1 ==> all[done].last == i)
    requires all[next..] == BlocksFrom(lines, i + 1, i, headings + [Heading(t.level(lines[i]), Strip(lines[i]))], next, t)
    ensures Scanned(lines, i + 1, i, headings + [Heading(t.level(lines[i]), Strip(lines[i]))], next, all, t)
  {
    hide HeadingsAbove, BlockAt, Enclosed, BlocksFrom;
    NotEnclosed(lines, i, headings + [Heading(t.level(lines[i]), Strip(lines[i]))], all, next, t);
    OneMoreLine(lines, all, i, t);
  }

  lemma BehindLine(lines: seq<string>, i: nat, from: nat, headings: seq<Heading>, done: nat, all: seq<Block>, t: LineTools)
    requires Scanned(lines, i, from, headings, done, all, t) && i < |lines| && BlockAt(lines, i, t).None? && t.level(lines[i]) == 0
    ensures Scanned(lines, i + 1, from, headings, done, all, t)
  {
    hide HeadingsAbove, BlockAt, Enclosed;
    OneMoreLine(lines, all, i, t);
  }

  lemma {:induction false} RestRight(lines: seq<string>, i: nat, from: nat, headings: seq<Heading>, done: nat, all: seq<Block>, t: LineTools)
    requires Scanned(lines, i, from, headings, done, all, t)
    requires all[done..] == BlocksFrom(lines, i, from, headings, done, t)
    ensures forall k :: done <= k < |all| ==> Right(all, k, lines, t)
    decreases |lines| - i
  {
    hide Right, Scanned, BlockAt, Enclosed, HeadingsAbove, StackOf, ProseBlock, MadeBlock, BlocksFrom;
    assert from <= i <= |lines| && done <= |all| && headings == HeadingsAbove(lines, all, i, t) by { ScannedSo(lines, i, from, headings, done, all, t); }
    var prose := ProseBlock(lines, from, i, StackOf(headings), done);
    var next := done + |prose|;
    Unfolded(lines, i, from, headings, done, t);
    AtMostOne(lines, from, i, StackOf(headings), done);
    Front(all, done, prose, next);
    if prose != [] && (i == |lines| || BlockAt(lines, i, t).Some? || t.level(lines[i]) > 0) {
      assert all[done..][0] == prose[0];
      ProseRight(lines, i, from, headings, all, done, t);
    }
    if i < |lines| {
      if BlockAt(lines, i, t).Some? {
        var end := BlockAt(lines, i, t).value.end;
        MadeRight(lines, i, headings, all, next, t);
        BehindBlock(lines, i, from, headings, done, all, t, next);
        RestRight(lines, end, end, headings, next + 1, all, t);
      } else if t.level(lines[i]) > 0 {
        var more := headings + [Heading(t.level(lines[i]), Strip(lines[i]))];
        BehindHeading(lines, i, from, headings, done, all, t, next);
        RestRight(lines, i + 1, i, more, next, all, t);
      } else {
        BehindLine(lines, i, from, headings, done, all, t);
        RestRight(lines, i + 1, from, headings, done, all, t);
      }
    }
  }

  lemma OneMoreLine(lines: seq<string>, blocks: seq<Block>, i: nat, t: LineTools)
    requires i < |lines|
    ensures HeadingsAbove(lines, blocks, i + 1, t)
         == HeadingsAbove(lines, blocks, i, t)
            + if t.level(lines[i]) > 0 && !Enclosed(blocks, i) then [Heading(t.level(lines[i]), Strip(lines[i]))] else []
  {
  }

  lemma AtMostOne(lines: seq<string>, from: nat, to: nat, stack: seq<Heading>, order: nat)
    requires from <= to <= |lines|
    ensures |ProseBlock(lines, from, to, stack, order)| <= 1
  {
  }

  /** The elements put out at line i are the next of all. */
  lemma Front(all: seq<Block>, done: nat, prose: seq<Block>, next: nat)
    requires done <= |all| && |prose| <= 1 && next == done + |prose|
    ensures prose <= all[done..] ==> next <= |all| && all[next..] == all[done..][|prose|..] && (prose != [] ==> prose == [all[done]])
    ensures forall b: Block, rest: seq<Block> :: all[done..] == prose + [b] + rest ==> next < |all| && all[next] == b && all[next + 1..] == rest
  {
    forall b: Block, rest: seq<Block> | all[done..] == prose + [b] + rest
      ensures next < |all| && all[next] == b && all[next + 1..] == rest
    {
      assert all[done..][|prose|] == b;
      assert all[next + 1..] == all[done..][|prose| + 1..];
    }
  }

  lemma Unfolded(lines: seq<string>, i: nat, from: nat, headings: seq<Heading>, order: nat, t: LineTools)
    requires from <= i <= |lines|
    ensures
      var stack := StackOf(headings);
      var prose := ProseBlock(lines, from, i, stack, order);
      var next := order + |prose|;
      BlocksFrom(lines, i, from, headings, order, t)
      == if i == |lines| then prose
         else if BlockAt(lines, i, t).Some? then
           var found := BlockAt(lines, i, t).value;
           prose + [MadeBlock(lines, i, found, stack, next)] + BlocksFrom(lines, found.end, found.end, headings, next + 1, t)
         else if t.level(lines[i]) > 0 then
           prose + BlocksFrom(lines, i + 1, i, headings + [Heading(t.level(lines[i]), Strip(lines[i]))], next, t)
         else BlocksFrom(lines, i + 1, from, headings, order, t)
  {
    hide BlockAt, ProseBlock, MadeBlock, StackOf;
  }

  /** All elements of a text, from its lines alone: each is numbered, made of its lines, stands under exactly the headings
      above its end that no code block or table encloses, and begins and ends where it should. */
  lemma EveryElementIsRight(lines: seq<string>, t: LineTools, k: nat)
    requires k < |BlocksFrom(lines, 0, 0, [], 0, t)|
    ensures Right(BlocksFrom(lines, 0, 0, [], 0, t), k, lines, t)
  {
    var all := BlocksFrom(lines, 0, 0, [], 0, t);
    hide Right, BlocksFrom;
    assert all[0..] == all;
    assert HeadingsAbove(lines, all, 0, t) == [];
    RestRight(lines, 0, 0, [], 0, all, t);
  }

  /** What of the elements is kept: all but a text that is nothing but a heading, right before the table that has it as its
      caption. */
  lemma KeptMeans(els: seq<Block>, k: nat, textual: bool, headingOnly: string -> bool)
    requires k < |els|
    ensures
      var rest := KeptFrom(els, k + 1, textual, headingOnly);
      KeptFrom(els, k, textual, headingOnly)
      == if (&& textual && (els[k].kind == Kind.Prose || els[k].kind == Code) && headingOnly(els[k].text)
             && k + 1 < |els| && (els[k + 1].kind == PipeTable || els[k + 1].kind == TabTable)
             && els[k + 1].section == Some(Strip(els[k].text)))
         then rest else [els[k]] + rest
  {
    hide Strip;
  }
}

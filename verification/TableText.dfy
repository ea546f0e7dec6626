/** Markdown tables as text: printing rows with escaped cells, and reading the cells of a row back. */
module TableText {
  import opened Prelude
  import opened PythonText

  // ---------------------------------------------------------------- printing

  function EscapedChar(c: char): string {
    if c == '\\' then "\\\\" else if c == '|' then "\\|" else if c == '\r' || c == '\n' then " " else [c]
  }

  function EscapeChars(s: string): string {
    if s == "" then "" else EscapedChar(s[0]) + EscapeChars(s[1..])
  }

  /** _esc */
  function Escape(value: Option<string>): string {
    if value.None? then "" else Strip(EscapeChars(value.value))
  }

  type Cell = Option<string>

  function Width(rows: seq<seq<Cell>>): nat {
    if rows == [] then 0
    else
      var rest := Width(rows[1..]);
      if |rows[0]| < rest then rest else |rows[0]|
  }

  /** The escaped cells of a row, padded to the width of the table. */
  function Padded(row: seq<Cell>, width: nat): (cells: seq<string>)
    ensures |cells| == width
  {
    seq(width, i requires 0 <= i < width => if i < |row| then Escape(row[i]) else "")
  }

  function Line(cells: seq<string>): string {
    "| " + StrJoin(" | ", cells) + " |"
  }

  function Dashes(width: nat): (cells: seq<string>)
    ensures |cells| == width
  {
    seq(width, i => "---")
  }

  function BodyLines(rows: seq<seq<Cell>>, width: nat): (lines: seq<string>)
    ensures |lines| == |rows|
  {
    seq(|rows|, k requires 0 <= k < |rows| => Line(Padded(rows[k], width)))
  }

  /** The lines of the printed table. */
  function TableLines(rows: seq<seq<Cell>>): seq<string>
    requires rows != []
  {
    var width := Width(rows);
    [Line(Padded(rows[0], width)), Line(Dashes(width))] + BodyLines(rows[1..], width)
  }

  function Markdown(rows: seq<seq<Cell>>): string {
    if rows == [] || Width(rows) == 0 then "" else StrJoin("\n", TableLines(rows))
  }

  lemma TopLines(rows: seq<seq<Cell>>)
    requires rows != []
    ensures |TableLines(rows)| == |rows| + 1
    ensures TableLines(rows)[..2] == [Line(Padded(rows[0], Width(rows))), Line(Dashes(Width(rows)))]
  {
    hide Line, Padded;
  }

  lemma LineAt(rows: seq<seq<Cell>>, k: nat)
    requires 0 < k < |rows|
    ensures |TableLines(rows)| == |rows| + 1 && TableLines(rows)[k + 1] == Line(Padded(rows[k], Width(rows)))
    ensures TableLines(rows)[..k + 2] == TableLines(rows)[..k + 1] + [Line(Padded(rows[k], Width(rows)))]
  {
    hide Line, Padded;
    assert TableLines(rows)[k + 1] == BodyLines(rows[1..], Width(rows))[k - 1];
  }

  /** rows_to_markdown */
  method RowsToMarkdown(rows: seq<seq<Cell>>) returns (text: string)
    ensures text == Markdown(rows)
  {
    if rows == [] {
      return "";
    }
    var width := Width(rows);
    if width == 0 {
      return "";
    }
    var lines := [Line(Padded(rows[0], width)), Line(Dashes(width))];
    ghost var all := TableLines(rows);
    TopLines(rows);
    for k := 1 to |rows|
      invariant lines == all[..k + 1]
    {
      hide *;
      LineAt(rows, k);
      lines := lines + [Line(Padded(rows[k], width))];
    }
    assert all[..|rows| + 1] == all;
    return StrJoin("\n", lines);
  }

  // ---------------------------------------------------------------- reading

  /** s.strip("|") */
  function StripPipes(s: string): string {
    if s != "" && s[0] == '|' then StripPipes(s[1..])
    else if s != "" && s[|s| - 1] == '|' then StripPipes(s[..|s| - 1])
    else s
  }

  /** A pipe that no backslash precedes. */
  predicate Divides(s: string, i: nat) {
    i < |s| && s[i] == '|' && (i > 0 ==> s[i - 1] != '\\')
  }

  /** The first dividing pipe at or after i; the length without one. */
  function FirstDivider(s: string, i: nat): (k: nat)
    requires i <= |s|
    ensures i <= k <= |s| && (k < |s| ==> Divides(s, k)) && forall j :: i <= j < k ==> !Divides(s, j)
    decreases |s| - i
  {
    if i == |s| || Divides(s, i) then i else FirstDivider(s, i + 1)
  }

  /** re.split at the dividing pipes; what follows one sees it as the character before. */
  function SplitCells(s: string): seq<string>
    decreases |s|
  {
    var k := FirstDivider(s, 0);
    if k == |s| then [s] else [s[..k]] + SplitCells(s[k + 1..])
  }

  function StripAll(cells: seq<string>): (r: seq<string>)
    ensures |r| == |cells|
  {
    seq(|cells|, i requires 0 <= i < |cells| => Strip(cells[i]))
  }

  /** _table_cells */
  function Cells(row: string): seq<string> {
    StripAll(SplitCells(StripPipes(Strip(row))))
  }

  // ---------------------------------------------------------------- stripping

  /** Empty, or without whitespace at either end. */
  predicate Bare(s: string) {
    s != "" ==> !IsSpace(s[0]) && !IsSpace(s[|s| - 1])
  }

  lemma {:induction false} LeadingIs(lead: string, rest: string)
    requires Blank(lead) && (rest != "" ==> !IsSpace(rest[0]))
    ensures LeadingSpaces(lead + rest) == |lead|
  {
    if lead != "" {
      assert (lead + rest)[1..] == lead[1..] + rest;
      LeadingIs(lead[1..], rest);
    } else {
      assert lead + rest == rest;
    }
  }

  lemma {:induction false} TrimmedIs(rest: string, trail: string)
    requires Blank(trail) && (rest != "" ==> !IsSpace(rest[|rest| - 1]))
    ensures TrimmedLength(rest + trail) == |rest|
  {
    if trail != "" {
      assert (rest + trail)[..|rest + trail| - 1] == rest + trail[..|trail| - 1];
      TrimmedIs(rest, trail[..|trail| - 1]);
    } else {
      assert rest + trail == rest;
    }
  }

  lemma StripIs(lead: string, core: string, trail: string)
    requires Blank(lead) && Blank(trail) && Bare(core)
    ensures Strip(lead + core + trail) == core
  {
    if core == "" {
      LeadingIs(lead + trail, "");
      assert lead + core + trail == lead + trail + "" == lead + trail;
    } else {
      LeadingIs(lead, core + trail);
      assert lead + core + trail == lead + (core + trail);
      assert (lead + core + trail)[|lead|..] == core + trail;
      TrimmedIs(core, trail);
    }
  }

  lemma StripSplits(s: string) returns (lead: string, trail: string)
    ensures Blank(lead) && Blank(trail) && Bare(Strip(s)) && s == lead + Strip(s) + trail
  {
    hide LeadingSpaces, TrimmedLength;
    var n := LeadingSpaces(s);
    var tail := s[n..];
    var m := TrimmedLength(tail);
    lead, trail := s[..n], tail[m..];
    assert tail == Strip(s) + trail;
    assert s == lead + tail;
    assert lead + (Strip(s) + trail) == lead + Strip(s) + trail;
    if m > 0 {
      assert Strip(s)[0] == tail[0] == s[n];
    }
  }

  // ---------------------------------------------------------------- the round trip of one row

  /** Every pipe of the cell is behind a backslash, and no whitespace is at its ends. */
  predicate Guarded(cell: string) {
    Bare(cell) && forall i :: 0 <= i < |cell| && cell[i] == '|' ==> i > 0 && cell[i - 1] == '\\'
  }

  function Spread(cells: seq<string>): seq<string> {
    seq(|cells|, i requires 0 <= i < |cells| => " " + cells[i] + " ")
  }

  lemma FirstDividerIs(cell: string, rest: string)
    requires Guarded(cell)
    ensures FirstDivider(" " + cell + " |" + rest, 0) == |cell| + 2
    ensures FirstDivider(" " + cell + " ", 0) == |cell| + 2
  {
    var s, t := " " + cell + " |" + rest, " " + cell + " ";
    assert Divides(s, |cell| + 2);
    forall j | 0 <= j < |cell| + 2 ensures !Divides(s, j) && !Divides(t, j) {
      if 0 < j < |cell| + 1 {
        assert s[j] == cell[j - 1] == t[j];
        if cell[j - 1] == '|' {
          assert s[j - 1] == cell[j - 2] == t[j - 1];
        }
      }
    }
  }

  lemma SplitStep(cell: string, rest: string)
    requires Guarded(cell)
    ensures SplitCells(" " + cell + " |" + rest) == [" " + cell + " "] + SplitCells(rest)
    ensures SplitCells(" " + cell + " ") == [" " + cell + " "]
  {
    var s, first := " " + cell + " |" + rest, " " + cell + " ";
    FirstDividerIs(cell, rest);
    assert s[..|first|] == first && s[|first| + 1..] == rest;
  }

  lemma {:induction false} SplitSpread(cells: seq<string>)
    requires cells != [] && forall i :: 0 <= i < |cells| ==> Guarded(cells[i])
    ensures SplitCells(" " + StrJoin(" | ", cells) + " ") == Spread(cells)
  {
    hide SplitCells, Guarded;
    var s := " " + StrJoin(" | ", cells) + " ";
    if |cells| == 1 {
      SplitStep(cells[0], "");
    } else {
      var rest := " " + StrJoin(" | ", cells[1..]) + " ";
      assert s == " " + cells[0] + " |" + rest;
      SplitStep(cells[0], rest);
      SplitSpread(cells[1..]);
      assert Spread(cells) == [" " + cells[0] + " "] + Spread(cells[1..]);
    }
  }

  lemma StripPipesOf(middle: string)
    requires middle != "" && middle[0] != '|' && middle[|middle| - 1] != '|'
    ensures StripPipes("|" + middle + "|") == middle
  {
    var s, t := "|" + middle + "|", middle + "|";
    assert s[1..] == t && t[..|t| - 1] == middle;
    assert StripPipes(middle) == middle;
    assert StripPipes(t) == StripPipes(t[..|t| - 1]);
  }

  lemma StripLine(middle: string)
    requires middle != "" && middle[0] != '|' && middle[|middle| - 1] != '|'
    ensures StripPipes(Strip("|" + middle + "|")) == middle
  {
    hide StripPipes;
    var s := "|" + middle + "|";
    StripIs("", s, "");
    assert "" + s + "" == s;
    StripPipesOf(middle);
  }

  /** Reading a printed row gives back its cells. */
  lemma CellsOfLine(cells: seq<string>)
    requires cells != [] && forall i :: 0 <= i < |cells| ==> Guarded(cells[i])
    ensures Cells(Line(cells)) == cells
  {
    var middle := " " + StrJoin(" | ", cells) + " ";
    assert Line(cells) == "|" + middle + "|";
    StripLine(middle);
    SplitSpread(cells);
    forall i | 0 <= i < |cells| ensures Strip(Spread(cells)[i]) == cells[i] {
      StripIs(" ", cells[i], " ");
    }
  }

  // ---------------------------------------------------------------- escaping

  /** A value as one line: carriage returns and line feeds are spaces. */
  function Spaced(s: string): (r: string)
    ensures |r| == |s|
  {
    if s == "" then "" else [if s[0] == '\r' || s[0] == '\n' then ' ' else s[0]] + Spaced(s[1..])
  }

  /** What a backslash was put before. */
  function Unescape(s: string): string {
    if s == "" then ""
    else if s[0] == '\\' && |s| > 1 then [s[1]] + Unescape(s[2..])
    else [s[0]] + Unescape(s[1..])
  }

  lemma {:induction false} UnescapeOfEscape(s: string)
    ensures Unescape(EscapeChars(s)) == Spaced(s)
  {
    if s != "" {
      UnescapeOfEscape(s[1..]);
      var e := EscapedChar(s[0]);
      assert EscapeChars(s)[|e|..] == EscapeChars(s[1..]);
    }
  }

  lemma {:induction false} EscapeConcat(a: string, b: string)
    ensures EscapeChars(a + b) == EscapeChars(a) + EscapeChars(b)
  {
    if a == "" {
      assert a + b == b;
    } else {
      assert (a + b)[1..] == a[1..] + b;
      EscapeConcat(a[1..], b);
    }
  }

  lemma {:induction false} EscapeBlank(s: string)
    requires Blank(s)
    ensures Blank(EscapeChars(s))
  {
    if s != "" {
      EscapeBlank(s[1..]);
    }
  }

  lemma EscapeBare(s: string)
    requires Bare(s)
    ensures Bare(EscapeChars(s))
  {
    if s != "" {
      var front, last := s[..|s| - 1], s[|s| - 1..];
      assert s == front + last;
      EscapeConcat(front, last);
      assert EscapeChars(last) == EscapedChar(last[0]);
    }
  }

  /** Stripping before or after escaping is the same. */
  lemma StripOfEscape(s: string)
    ensures Strip(EscapeChars(s)) == EscapeChars(Strip(s))
  {
    var lead, trail := StripSplits(s);
    EscapeConcat(lead + Strip(s), trail);
    EscapeConcat(lead, Strip(s));
    EscapeBlank(lead);
    EscapeBlank(trail);
    EscapeBare(Strip(s));
    StripIs(EscapeChars(lead), EscapeChars(Strip(s)), EscapeChars(trail));
  }

  /** Every pipe is behind a backslash; the character before the text is not part of it. */
  predicate PipesGuarded(s: string) {
    forall i :: 0 <= i < |s| && s[i] == '|' ==> i > 0 && s[i - 1] == '\\'
  }

  lemma {:induction false} EscapeGuards(s: string)
    ensures PipesGuarded(EscapeChars(s))
  {
    if s != "" {
      EscapeGuards(s[1..]);
      var e, rest := EscapedChar(s[0]), EscapeChars(s[1..]);
      forall i | 0 <= i < |e + rest| && (e + rest)[i] == '|' ensures i > 0 && (e + rest)[i - 1] == '\\' {
        if i >= |e| {
          assert rest[i - |e|] == '|';
        }
      }
    }
  }

  /** Text that reaches the printer without line separators other than carriage return and line feed. */
  predicate PlainValue(value: Cell) {
    value.Some? ==> forall i :: 0 <= i < |value.value| && IsLineBreak(value.value[i]) ==> value.value[i] in {'\r', '\n'}
  }

  lemma {:induction false} EscapeOneLine(s: string)
    requires PlainValue(Some(s))
    ensures OneLine(EscapeChars(s))
  {
    if s != "" {
      EscapeOneLine(s[1..]);
    }
  }

  /** A printed cell can be read back, and gives the trimmed value as one line. */
  lemma EscapedCell(value: string)
    ensures Guarded(Escape(Some(value)))
    ensures Unescape(Escape(Some(value))) == Spaced(Strip(value))
    ensures PlainValue(Some(value)) ==> OneLine(Escape(Some(value)))
  {
    StripOfEscape(value);
    EscapeGuards(Strip(value));
    UnescapeOfEscape(Strip(value));
    var lead, trail := StripSplits(EscapeChars(value));
    if PlainValue(Some(value)) {
      EscapeOneLine(value);
      assert forall i :: 0 <= i < |Strip(EscapeChars(value))| ==>
        Strip(EscapeChars(value))[i] == EscapeChars(value)[|lead| + i];
    }
  }

  lemma PaddedCells(row: seq<Cell>, width: nat)
    requires forall i :: 0 <= i < |row| ==> PlainValue(row[i])
    ensures forall i :: 0 <= i < width ==> Guarded(Padded(row, width)[i]) && OneLine(Padded(row, width)[i])
    ensures forall i :: 0 <= i < width && i < |row| && row[i].Some? ==>
              Unescape(Padded(row, width)[i]) == Spaced(Strip(row[i].value))
    ensures forall i :: 0 <= i < width && (i < |row| ==> row[i].None?) ==> Padded(row, width)[i] == ""
  {
    hide Escape, Guarded, OneLine, PlainValue, Spaced, Unescape;
    assert Guarded("") && OneLine("") by { EmptyCell(); }
    assert Escape(None) == "" by { EmptyCell(); }
    forall i | 0 <= i < width && i < |row| && row[i].Some?
      ensures Guarded(Escape(row[i])) && OneLine(Escape(row[i])) && Unescape(Escape(row[i])) == Spaced(Strip(row[i].value))
    {
      EscapedCell(row[i].value);
    }
  }

  lemma EmptyCell()
    ensures Guarded("") && OneLine("") && Escape(None) == ""
  {
  }

  // ---------------------------------------------------------------- the round trip of a table

  lemma {:induction false} JoinOneLine(separator: string, parts: seq<string>)
    requires OneLine(separator) && forall k :: 0 <= k < |parts| ==> OneLine(parts[k])
    ensures OneLine(StrJoin(separator, parts))
  {
    if |parts| > 1 {
      JoinOneLine(separator, parts[1..]);
    }
  }

  lemma {:induction false} FirstBreakIs(line: string, rest: string)
    requires OneLine(line)
    ensures FirstBreak(line + "\n" + rest) == |line| && FirstBreak(line) == |line|
  {
    if line == "" {
      assert line + "\n" + rest == "\n" + rest;
    } else {
      assert (line + "\n" + rest)[1..] == line[1..] + "\n" + rest;
      FirstBreakIs(line[1..], rest);
    }
  }

  lemma SplitLine(line: string, rest: string)
    requires OneLine(line)
    ensures SplitLines(line + "\n" + rest) == [line] + SplitLines(rest)
    ensures line != "" ==> SplitLines(line) == [line]
  {
    var s := line + "\n" + rest;
    FirstBreakIs(line, rest);
    assert s[|line|] == '\n' && s[..|line|] == line && s[|line| + 1..] == rest;
    assert line[..|line|] == line;
  }

  lemma {:induction false} LinesOfJoin(lines: seq<string>)
    requires forall k :: 0 <= k < |lines| ==> OneLine(lines[k]) && lines[k] != ""
    ensures SplitLines(StrJoin("\n", lines)) == lines
  {
    hide SplitLines, OneLine;
    if lines == [] {
      assert SplitLines("") == [] by { NoLines(); }
    } else if |lines| == 1 {
      SplitLine(lines[0], "");
    } else {
      SplitLine(lines[0], StrJoin("\n", lines[1..]));
      LinesOfJoin(lines[1..]);
    }
  }

  lemma NoLines()
    ensures SplitLines("") == []
  {
  }

  lemma LineIsOneLine(cells: seq<string>)
    requires forall i :: 0 <= i < |cells| ==> OneLine(cells[i])
    ensures OneLine(Line(cells)) && Line(cells) != ""
  {
    JoinOneLine(" | ", cells);
  }

  ghost predicate PlainRows(rows: seq<seq<Cell>>) {
    forall k, i :: 0 <= k < |rows| && 0 <= i < |rows[k]| ==> PlainValue(rows[k][i])
  }

  /** The cells printed in a line of the table; the second line is the rule under the header. */
  function PrintedCells(rows: seq<seq<Cell>>, k: nat): (cells: seq<string>)
    requires k <= |rows| && rows != []
    ensures |cells| == Width(rows)
  {
    if k == 0 then Padded(rows[0], Width(rows))
    else if k == 1 then Dashes(Width(rows))
    else Padded(rows[k - 1], Width(rows))
  }

  lemma LineOfCells(rows: seq<seq<Cell>>, k: nat)
    requires k <= |rows| && rows != []
    ensures |TableLines(rows)| == |rows| + 1 && TableLines(rows)[k] == Line(PrintedCells(rows, k))
  {
    hide Line, Padded, Dashes, Width, TableLines;
    TopLines(rows);
    if k <= 1 {
      assert TableLines(rows)[k] == TableLines(rows)[..2][k];
    } else {
      LineAt(rows, k - 1);
    }
  }

  lemma PrintedGuarded(rows: seq<seq<Cell>>, k: nat)
    requires PlainRows(rows) && k <= |rows| && rows != []
    ensures forall i :: 0 <= i < Width(rows) ==> Guarded(PrintedCells(rows, k)[i]) && OneLine(PrintedCells(rows, k)[i])
  {
    hide Guarded, OneLine, Padded, Width;
    assert Guarded("---") && OneLine("---") by { RuleCell(); }
    if k != 1 {
      PaddedCells(rows[if k == 0 then 0 else k - 1], Width(rows));
    }
  }

  lemma PrintedLine(rows: seq<seq<Cell>>, k: nat)
    requires PlainRows(rows) && k <= |rows| && Width(rows) > 0 && rows != []
    ensures |TableLines(rows)| == |rows| + 1
    ensures OneLine(TableLines(rows)[k]) && TableLines(rows)[k] != ""
    ensures Cells(TableLines(rows)[k]) == PrintedCells(rows, k)
  {
    hide *;
    var cells := PrintedCells(rows, k);
    LineOfCells(rows, k);
    PrintedGuarded(rows, k);
    LineIsOneLine(cells);
    CellsOfLine(cells);
  }

  lemma RuleCell()
    ensures Guarded("---") && OneLine("---")
  {
  }

  /** The round trip: reading a printed table line by line gives as many lines as there are rows and a rule, in each of
      them as many cells as the table is wide, and in them what was printed. */
  lemma TableReadsBack(rows: seq<seq<Cell>>)
    requires PlainRows(rows) && rows != [] && Width(rows) > 0
    ensures
      var lines := SplitLines(Markdown(rows));
      |lines| == |rows| + 1 && forall k :: 0 <= k < |lines| ==> Cells(lines[k]) == PrintedCells(rows, k)
  {
    hide Cells, SplitLines, OneLine;
    forall k | 0 <= k < |TableLines(rows)|
      ensures OneLine(TableLines(rows)[k]) && TableLines(rows)[k] != "" && Cells(TableLines(rows)[k]) == PrintedCells(rows, k)
    {
      PrintedLine(rows, k);
    }
    LinesOfJoin(TableLines(rows));
  }

  /** The width of a table is that of its widest row. */
  lemma {:induction false} WidthMeans(rows: seq<seq<Cell>>)
    requires rows != []
    ensures forall k :: 0 <= k < |rows| ==> |rows[k]| <= Width(rows)
    ensures exists k :: 0 <= k < |rows| && |rows[k]| == Width(rows)
  {
    if |rows| > 1 {
      var rest := rows[1..];
      WidthMeans(rest);
      var k :| 0 <= k < |rest| && |rest[k]| == Width(rest);
      assert rows[k + 1] == rest[k];
      forall j | 0 <= j < |rows| ensures |rows[j]| <= Width(rows) {
        if j > 0 {
          assert rows[j] == rest[j - 1];
        }
      }
    } else {
      assert rows[1..] == [];
    }
  }

  /** What is printed: nothing of a table without cells, else the header, the rule, and a line for every other row. */
  lemma PrintedMeans(rows: seq<seq<Cell>>)
    requires rows != []
    ensures (forall k :: 0 <= k < |rows| ==> |rows[k]| == 0) <==> Width(rows) == 0
    ensures Width(rows) == 0 ==> Markdown(rows) == ""
    ensures Width(rows) > 0 ==> Markdown(rows) == StrJoin("\n", TableLines(rows)) && |TableLines(rows)| == |rows| + 1
    ensures forall k :: 0 <= k <= |rows| ==> LineIs(TableLines(rows)[k], PrintedCells(rows, k))
  {
    WidthMeans(rows);
    hide TableLines, Width, Markdown, PrintedCells, StrJoin;
    NothingPrinted(rows);
    LineOfCells(rows, 0);
    forall k | 0 <= k <= |rows| ensures LineIs(TableLines(rows)[k], PrintedCells(rows, k)) {
      LineOfCells(rows, k);
    }
  }

  predicate LineIs(line: string, cells: seq<string>) {
    line == "| " + StrJoin(" | ", cells) + " |"
  }

  /** All lines are as wide as the table: short rows are filled up with empty cells. */
  lemma PrintedCellsMean(rows: seq<seq<Cell>>, k: nat, i: nat)
    requires k < |rows| && i < Width(rows)
    ensures PrintedCells(rows, 1)[i] == "---"
    ensures
      var printed := PrintedCells(rows, if k == 0 then 0 else k + 1)[i];
      if |rows[k]| > i then printed == Escape(rows[k][i]) else printed == ""
  {
    hide Width, Escape;
  }

  lemma NothingPrinted(rows: seq<seq<Cell>>)
    requires rows != []
    ensures Markdown(rows) == if Width(rows) == 0 then "" else StrJoin("\n", TableLines(rows))
  {
    hide Width, TableLines;
  }
}

/** Tables that the splitter refuses although it could have split them, at concrete inputs. */
module TableFailures {
  import opened ChunkText
  import opened Decimals
  import opened HardSplit
  import opened Prelude
  import opened PythonText
  import opened TableChunks
  import opened TableText

  // ---------------------------------------------------------------- counting characters

  function Length(s: string): nat { |s| }

  lemma LengthSplits(s: string, target: nat)
    requires target >= 1
    ensures Pieces(s, target, Length).Ok?
  {
    SmallCharactersSplit(s, target, Length);
  }

  lemma CompactSplits(cell: Labelled, spec: ChunkSpec)
    requires |cell.tag| + 3 <= spec.max
    ensures CompactCell(cell, spec, Length).Ok?
  {
    hide Pieces;
    var budget := spec.max - |cell.tag| - 2;
    LengthSplits(Shown(cell.value), budget);
    PiecesPartition(Shown(cell.value), budget, Length);
    var pieces := Pieces(Shown(cell.value), budget, Length).value;
    assert AllFit(cell.tag, pieces, spec.max, Length);
  }

  /** Counting characters, the compact form exists whenever its labels leave room. */
  lemma {:induction false} CompactExists(cells: seq<Labelled>, spec: ChunkSpec)
    requires forall k :: 0 <= k < |cells| ==> |cells[k].tag| + 3 <= spec.max
    ensures Records(cells, false, spec, Length).Ok?
  {
    hide CompactCell;
    if cells != [] {
      CompactSplits(cells[0], spec);
      CompactExists(cells[1..], spec);
    }
  }

  // ---------------------------------------------------------------- tables given by their cells

  ghost predicate Written(cells: seq<string>) {
    cells != [] && forall i :: 0 <= i < |cells| ==> Guarded(cells[i]) && OneLine(cells[i])
  }

  function Lines(table: seq<seq<string>>): (lines: seq<string>)
    ensures |lines| == |table|
  {
    seq(|table|, k requires 0 <= k < |table| => Line(table[k]))
  }

  lemma LinesRead(table: seq<seq<string>>)
    requires forall k :: 0 <= k < |table| ==> Written(table[k])
    ensures NonBlank(SplitLines(StrJoin("\n", Lines(table)))) == Lines(table)
    ensures forall k :: 0 <= k < |table| ==> Cells(Lines(table)[k]) == table[k]
  {
    hide Line, SplitLines, NonBlank, Cells, Guarded, OneLine;
    forall k | 0 <= k < |table|
      ensures OneLine(Lines(table)[k]) && Lines(table)[k] != "" && Strip(Lines(table)[k]) != "" && Cells(Lines(table)[k]) == table[k]
    {
      LineIsOneLine(table[k]);
      LineIsNotBlank(table[k]);
      CellsOfLine(table[k]);
    }
    LinesOfJoin(Lines(table));
    NonBlankAll(Lines(table));
  }

  // ---------------------------------------------------------------- a label with no room for its value

  const HEADERS: seq<string> := ["Item", "Temperature"]
  const RULE: seq<string> := ["---", "---"]
  const VALUES: seq<string> := ["b", "c"]

  function Reference(caption: string, header: string, rows: seq<seq<string>>): string { "0123456789ab" }

  function NoProse(text: string, spec: ChunkSpec): Texts { Ok([text]) }

  function Tables(): TableTools {
    TableTools(s => s == Line(RULE), NoProse, Reference)
  }

  function GapTable(): string {
    StrJoin("\n", Lines([HEADERS, RULE, VALUES]))
  }

  lemma GapRowsWritten()
    ensures Written(HEADERS) && Written(RULE) && Written(VALUES)
  {
    TwoWritten("Item", "Temperature");
    TwoWritten("---", "---");
    TwoWritten("b", "c");
  }

  lemma TwoWritten(a: string, b: string)
    requires Plainly(a) && Plainly(b)
    ensures Written([a, b])
  {
  }

  /** Letters and dashes only. */
  predicate Plainly(s: string) {
    s != "" && forall i :: 0 <= i < |s| ==> s[i] == '-' || 'A' <= s[i] <= 'Z' || 'a' <= s[i] <= 'z'
  }

  lemma GapLengths()
    ensures |Line(HEADERS)| == 22 && |Line(RULE)| == 13 && |Line(VALUES)| == 9 && Line(HEADERS) != Line(RULE)
  {
    assert HEADERS[1..] == ["Temperature"] && RULE[1..] == ["---"] && VALUES[1..] == ["c"];
  }

  lemma GapLines()
    ensures NonBlank(SplitLines(GapTable())) == [Line(HEADERS), Line(RULE), Line(VALUES)]
    ensures Cells(Line(HEADERS)) == HEADERS && Cells(Line(VALUES)) == VALUES
  {
    hide *;
    hide HEADERS, RULE, VALUES;
    var table := [HEADERS, RULE, VALUES];
    GapRowsWritten();
    LinesRead(table);
    assert Lines(table) == [Line(HEADERS), Line(RULE), Line(VALUES)] by { ThreeLines(HEADERS, RULE, VALUES); }
    assert Cells(Lines(table)[0]) == HEADERS && Cells(Lines(table)[2]) == VALUES;
    assert GapTable() == StrJoin("\n", Lines(table)) by { GapTableIs(); }
  }

  lemma GapTableIs()
    ensures GapTable() == StrJoin("\n", Lines([HEADERS, RULE, VALUES]))
  {
  }

  lemma ThreeLines(a: seq<string>, b: seq<string>, c: seq<string>)
    ensures Lines([a, b, c]) == [Line(a), Line(b), Line(c)]
  {
  }

  /** The labels of the two cells, the second of which counts 38. */
  function GapCells(): seq<Labelled> {
    WideCells("", HEADERS, [VALUES], 1)
  }

  lemma GapCellsAre()
    ensures |GapCells()| == 2 && |GapCells()[0].tag| == 31 && |GapCells()[1].tag| == 38
    ensures GapCells()[0].value == "b"
  {
    hide CellLabel;
    var first := Labelled(CellLabel("", 1, 1, HEADERS[0], VALUES[0]), VALUES[0]);
    var second := Labelled(CellLabel("", 1, 2, HEADERS[1], VALUES[0]), VALUES[1]);
    assert RowCells("", HEADERS, VALUES, 1, 2) == [];
    assert RowCells("", HEADERS, VALUES, 1, 1) == [second];
    assert RowCells("", HEADERS, VALUES, 1, 0) == [first, second];
    assert WideCells("", HEADERS, [], 2) == [];
    assert [VALUES][1..] == [];
    assert GapCells() == [first, second] + [];
    LabelLength(1, 1, HEADERS[0], VALUES[0]);
    LabelLength(1, 2, HEADERS[1], VALUES[0]);
  }

  lemma LabelLength(row: nat, column: nat, name: string, key: string)
    requires row < 10 && column < 10
    ensures |CellLabel("", row, column, name, key)| == 26 + |name| + |key|
  {
    assert |Decimal(row)| == 1 && |Decimal(column)| == 1;
  }

  lemma GapFieldsFit(reference: string, headers: seq<string>, cells: seq<string>)
    requires |reference| == 12 && |headers| == |cells| == 2
    ensures
      var fields := CompactFields(reference, "", headers, [cells]);
      forall k :: 0 <= k < |fields| ==> |fields[k].tag| == 37
  {
    hide UnderReference;
    TwoHeaders(headers);
    TwoValues(cells);
    assert [cells][1..] == [] && CompactRows([], 2) == [];
    assert CompactRows([cells], 1) == CompactRow(cells, 1, 0) + [];
    var fields := [] + ColumnHeaders(headers, 0) + CompactRows([cells], 1);
    TagsUnderReference(reference, fields);
  }

  lemma TwoHeaders(headers: seq<string>)
    requires |headers| == 2
    ensures |ColumnHeaders(headers, 0)| == 2
    ensures forall k :: 0 <= k < 2 ==> |ColumnHeaders(headers, 0)[k].tag| == 15
  {
    assert Decimal(1) == "1" && Decimal(2) == "2";
    assert ColumnHeaders(headers, 2) == [];
    assert ColumnHeaders(headers, 1) == [Labelled("column " + Decimal(2) + " header", headers[1])];
  }

  lemma TwoValues(cells: seq<string>)
    requires |cells| == 2
    ensures |CompactRow(cells, 1, 0)| == 2
    ensures forall k :: 0 <= k < 2 ==> |CompactRow(cells, 1, 0)[k].tag| == 15
  {
    assert Decimal(1) == "1" && Decimal(2) == "2";
    assert CompactRow(cells, 1, 2) == [];
    assert CompactRow(cells, 1, 1) == [Labelled("Row " + Decimal(1) + "; column " + Decimal(2), cells[1])];
  }

  lemma TagsUnderReference(reference: string, fields: seq<Labelled>)
    ensures
      var list := UnderReference(reference, fields);
      |list| == |fields| && forall k :: 0 <= k < |list| ==> |list[k].tag| == |fields[k].tag| + |reference| + 10
  {
  }

  /** A concrete table, with characters counted: it has to be cut cell by cell, all its labels pass the test for the wide
      form, the wide form fails, and the compact form exists. */
  lemma GapTableFails()
    ensures
      var spec := ChunkSpec(42, 0, 42, 0);
      && TableTexts(GapTable(), spec, Length, Tables()) == Err(IdentityTooLarge)
      && !LabelTooLong(GapCells(), spec, Length)
      && Records(CompactFields(Reference("", Line(HEADERS), [VALUES]), "", HEADERS, [VALUES]), false, spec, Length).Ok?
  {
    var spec := ChunkSpec(42, 0, 42, 0);
    GapFieldsFit("0123456789ab", HEADERS, VALUES);
    CompactExists(CompactFields("0123456789ab", "", HEADERS, [VALUES]), spec);
    GapCellsAre();
    GapReached(spec);
    GapChosen(spec);
  }

  lemma GapReached(spec: ChunkSpec)
    requires spec == ChunkSpec(42, 0, 42, 0)
    ensures !LabelTooLong(GapCells(), spec, Length) && Rectangular(HEADERS, [VALUES])
    ensures WideTable(Line(HEADERS), [Line(VALUES)], spec, Length, "", Reference) == Err(IdentityTooLarge)
  {
    hide *;
    GapCellsAre();
    GapLines();
    GapRectangular();
    FirstFits(GapCells(), spec);
    ReachesSecond(GapCells(), spec);
    ParsedOne(Line(VALUES));
    assert GapCells() == WideCells("", Cells(Line(HEADERS)), Parsed([Line(VALUES)]), 1) by { GapCellsIs(); }
    WideTableGap(Line(HEADERS), [Line(VALUES)], spec, Length, "", Reference);
  }

  lemma GapRectangular()
    ensures Rectangular(HEADERS, [VALUES])
  {
  }

  lemma GapCellsIs()
    ensures GapCells() == WideCells("", HEADERS, [VALUES], 1)
  {
  }

  lemma ParsedOne(row: string)
    ensures Parsed([row]) == [Cells(row)]
  {
  }

  lemma ReachesSecond(cells: seq<Labelled>, spec: ChunkSpec)
    requires |cells| == 2 && |cells[0].tag| < |cells[1].tag| == spec.max - 4 && Records(cells[..1], true, spec, Length).Ok?
    ensures ReachesGap(cells, spec, Length) && !LabelTooLong(cells, spec, Length)
  {
    hide Records;
    assert Length(cells[1].tag) == spec.max - 4;
  }

  lemma FirstFits(cells: seq<Labelled>, spec: ChunkSpec)
    requires |cells| > 0 && spec.max == 42 && |cells[0].tag| == 31 && |cells[0].value| == 1
    ensures Records(cells[..1], true, spec, Length).Ok?
  {
    var first := cells[0];
    assert cells[..1][0] == first && cells[..1][1..] == [];
    LengthSplits(Shown(first.value), 9);
    PiecesPartition(Shown(first.value), 9, Length);
    assert AllFit(first.tag, Pieces(Shown(first.value), 9, Length).value, spec.max, Length);
    assert Records([], true, spec, Length).Ok?;
  }

  lemma GapChosen(spec: ChunkSpec)
    requires spec == ChunkSpec(42, 0, 42, 0)
    ensures TableTexts(GapTable(), spec, Length, Tables())
         == WideTable(Line(HEADERS), [Line(VALUES)], spec, Length, "", Reference)
  {
    hide Line, WideTable, SplitLines, NonBlank, Lines, PlanRows;
    GapLines();
    GapLengths();
    var lines := [Line(HEADERS), Line(RULE), Line(VALUES)];
    assert FirstRule(lines, Tables().isRule) == 1;
    assert lines[..2] == [Line(HEADERS), Line(RULE)] && lines[2..] == [Line(VALUES)] && lines[..0] == [];
    ThreeLines(HEADERS, RULE, VALUES);
    LengthOfThree(lines);
    assert UnderHeader(lines[..2], [lines[2..][0]]) == StrJoin("\n", lines) by {
      assert lines[..2] + [lines[2..][0]] == lines;
    }
    assert RowTooLong(lines[..2], lines[2..], spec.max, Length);
  }

  lemma LengthOfThree(lines: seq<string>)
    requires |lines| == 3
    ensures |StrJoin("\n", lines)| == |lines[0]| + |lines[1]| + |lines[2]| + 2
  {
    assert lines[1..][1..] == [lines[2]];
    assert StrJoin("\n", lines[1..]) == lines[1] + "\n" + lines[2];
  }
}

/** The two halves of the chunker together: documents whose tables are split by the table splitter. */
module DocumentTables {
  import opened ChunkBudgets
  import opened ChunkContents
  import opened ChunkElements
  import opened ChunkText
  import opened HardSplit
  import opened Headings
  import opened Prelude
  import opened PythonText
  import opened TableBudgets
  import opened TextRuns
  import ChunkFailures
  import TableChunks
  import TableFailures
  import TableText

  /** The chunker's tools with the table splitter in its place. */
  function DocumentTools(count: Counter, paragraphs: Cuts, sentences: Cuts, headingOnly: string -> bool,
                         tables: TableChunks.TableTools): Tools
  {
    Tools(count, paragraphs, sentences, headingOnly, (md, spec) => TableChunks.TableTexts(md, spec, count, tables))
  }

  /** A table of its own, not a code block, with a row over a rule, and not left out. */
  predicate IsTable(e: Element, tables: TableChunks.TableTools) {
    e.modality == Table && e.routeReason != "code_block" && !Omitted(e) && HasRule(e.text, tables)
  }

  // ---------------------------------------------------------------- tables that chunking takes

  lemma InnerWithin(e: Element, spec: ChunkSpec, count: Counter)
    requires Modest(count) && spec.max >= 12 && !NoHeading(e.meta.sectionPath, spec.max, count)
    ensures Reserve(spec, e.meta.sectionPath, count).Ok? && BoundedHeading(e.meta.sectionPath, spec.max, count).Ok?
    ensures Inner(e, spec, count).max <= BodyBudget(BoundedHeading(e.meta.sectionPath, spec.max, count).value, spec.max, count)
  {
    hide BoundedHeading, NoHeading;
    HeadingFits(e.meta.sectionPath, spec.max, count);
    var prefix := BoundedHeading(e.meta.sectionPath, spec.max, count).value;
    assert count(prefix + "\n\n") <= count(prefix) + count("\n\n");
  }

  /** A table whose splitter keeps its parts within the budget never stops the chunking: the heading and the blank line
      that are added take no more than has been set aside for them. */
  lemma TableWithinFits(e: Element, spec: ChunkSpec, t: Tools)
    requires t.Valid() && Modest(t.count) && spec.max >= 12 && spec.target <= spec.max
    requires !NoHeading(e.meta.sectionPath, spec.max, t.count) && e.modality == Table && e.routeReason != "code_block"
    requires
      var parts := t.tables(e.text, Inner(e, spec, t.count));
      parts.Ok? && parts.value != [] && EachWithin(parts.value, Inner(e, spec, t.count).max, t.count)
    ensures TableFits(e, spec, t)
  {
    hide BoundedHeading, NoHeading, Reserve, BodyBudget, Modest, Dropped;
    InnerWithin(e, spec, t.count);
    ReserveKeepsOrder(spec, e.meta.sectionPath, t.count);
  }

  /** The splitter makes parts of the table, each within the budget under its heading. */
  predicate Splits(e: Element, spec: ChunkSpec, t: Tools) {
    var inner := Inner(e, spec, t.count);
    var parts := t.tables(e.text, inner);
    && e.routeReason != "code_block" && parts.Ok? && parts.value != []
    && EachWithin(parts.value, inner.max, t.count)
  }

  /** Documents with tables: chunking never fails when no path lacks a heading and every table is split within its budget,
      and every chunk is then within the limit. */
  lemma DocumentsNeverRaise(elements: seq<Element>, spec: ChunkSpec, embedMax: nat, t: Tools)
    requires t.Valid() && Modest(t.count) && Limit(spec, embedMax) >= 12 && spec.target > 0
    requires TargetHoldsCharacters(spec.target, Limit(spec, embedMax), t.count)
    requires forall e :: e in elements ==>
               || Omitted(e)
               || (&& !NoHeading(e.meta.sectionPath, Limit(spec, embedMax), t.count)
                   && (e.modality == Table ==> Splits(e, Bounded(spec, embedMax), t)))
    ensures ChunksOf(elements, spec, embedMax, t).Ok?
    ensures WithinLimit(ChunksOf(elements, spec, embedMax, t).value, Limit(spec, embedMax))
  {
    hide ChunksOf, Modest, NoHeading, WithinLimit, TableFits, Splits, Omitted, TargetHoldsCharacters;
    var bounded := Bounded(spec, embedMax);
    ChunksExactlyWhen(elements, spec, embedMax, t);
    forall e | e in elements ensures ElementFits(e, bounded, t) {
      if !Omitted(e) && e.modality == Table {
        SplitTableFits(e, bounded, t);
      }
    }
  }

  lemma SplitTableFits(e: Element, spec: ChunkSpec, t: Tools)
    requires t.Valid() && Modest(t.count) && spec.max >= 12 && spec.target <= spec.max
    requires !NoHeading(e.meta.sectionPath, spec.max, t.count) && e.modality == Table && Splits(e, spec, t)
    ensures TableFits(e, spec, t)
  {
    hide TableFits, NoHeading, Modest;
    TableWithinFits(e, spec, t);
  }

  // ---------------------------------------------------------------- what becomes of the parts of a table

  /** The parts under their heading, without those that only repeat a heading, and without empty ones. */
  function Kept(e: Element, parts: seq<string>, prefix: string, t: Tools): seq<string> {
    if parts == [] then []
    else
      var rest := Kept(e, parts[1..], prefix, t);
      if Dropped(e, parts[0], t) || parts[0] == "" then rest else [Prefixed(prefix, parts[0])] + rest
  }

  /** A record of a table that gives chunks at all gives one, with its whole text. */
  lemma TableRecordWhole(e: Element, part: string, range: Option<Range>, prefix: string, limit: nat, ordinal: nat, count: Counter)
    requires e.modality == Table && BoundedHeading(e.meta.sectionPath, limit, count) == Ok(prefix)
    requires RecordChunks(RecordOf(e, part, range, prefix), limit, ordinal, count).Ok?
    ensures ChunkTexts(RecordChunks(RecordOf(e, part, range, prefix), limit, ordinal, count).value)
         == if part == "" then [] else [Prefixed(prefix, part)]
  {
    hide BoundedHeading, BodyBudget, Prefixed, Body, PieceLength;
    var r := RecordOf(e, part, range, prefix);
    BodyOfPrefixed(prefix, part);
    if part != "" && count(part) > BodyBudget(prefix, limit, count) {
      LongTableStops(r, prefix, limit, ordinal, count);
    } else if part != "" {
      OneFragment(r, prefix, part, ordinal, count);
    }
  }

  lemma {:induction false} TablePartsWhole(e: Element, parts: seq<string>, ranges: seq<Range>, k: nat, prefix: string, t: Tools,
                                           limit: nat, ordinal: nat)
    requires e.modality == Table && BoundedHeading(e.meta.sectionPath, limit, t.count) == Ok(prefix)
    requires k <= |parts| && (ranges == [] || |ranges| == |parts|)
    requires AllChunks(PartRecords(e, parts, ranges, k, prefix, t), limit, ordinal, t.count).Ok?
    ensures ChunkTexts(AllChunks(PartRecords(e, parts, ranges, k, prefix, t), limit, ordinal, t.count).value)
         == Kept(e, parts[k..], prefix, t)
    decreases |parts| - k
  {
    hide BoundedHeading, RecordChunks, RecordOf, Dropped, Prefixed;
    if k < |parts| {
      assert parts[k..][0] == parts[k] && parts[k..][1..] == parts[k + 1..];
      if Dropped(e, parts[k], t) {
        TablePartsWhole(e, parts, ranges, k + 1, prefix, t, limit, ordinal);
      } else {
        var range := if ranges != [] then Some(ranges[k]) else None;
        var r, rest := RecordOf(e, parts[k], range, prefix), PartRecords(e, parts, ranges, k + 1, prefix, t);
        assert ([r] + rest)[0] == r && ([r] + rest)[1..] == rest;
        var first := RecordChunks(r, limit, ordinal, t.count).value;
        TableRecordWhole(e, parts[k], range, prefix, limit, ordinal, t.count);
        TablePartsWhole(e, parts, ranges, k + 1, prefix, t, limit, ordinal + |first|);
        TextsConcat(first, AllChunks(rest, limit, ordinal + |first|, t.count).value);
      }
    }
  }

  lemma OwnTexts(e: Element, spec: ChunkSpec, t: Tools, ordinal: nat)
    requires t.Valid() && spec.target <= spec.max && e.modality == Table && e.routeReason != "code_block" && !Omitted(e)
    requires ElementRecords(e, spec, t).Ok? && AllChunks(ElementRecords(e, spec, t).value, spec.max, ordinal, t.count).Ok?
    ensures t.tables(e.text, Inner(e, spec, t.count)).Ok? && BoundedHeading(e.meta.sectionPath, spec.max, t.count).Ok?
    ensures
      var parts := PartsOr(t.tables(e.text, Inner(e, spec, t.count)).value, e.text);
      var prefix := BoundedHeading(e.meta.sectionPath, spec.max, t.count).value;
      ChunkTexts(AllChunks(ElementRecords(e, spec, t).value, spec.max, ordinal, t.count).value) == Kept(e, parts, prefix, t)
  {
    hide BoundedHeading, AllChunks, PartRecords, Kept, Reserve;
    ReserveOk(spec, e.meta.sectionPath, t.count);
    var inner := Reserve(spec, e.meta.sectionPath, t.count).value;
    ReserveKeepsOrder(spec, e.meta.sectionPath, t.count);
    var parts := PartsOr(t.tables(e.text, inner).value, e.text);
    var prefix := BoundedHeading(e.meta.sectionPath, spec.max, t.count).value;
    TablePartsWhole(e, parts, [], 0, prefix, t, spec.max, ordinal);
    assert parts[0..] == parts;
  }

  /** Whatever the counter: when chunking succeeds, the parts the splitter makes of a table are chunks as they are, in
      their order and in the place of the table among the elements, each under the heading. */
  lemma TableStaysWhole(elements: seq<Element>, spec: ChunkSpec, embedMax: nat, t: Tools, g: nat)
    returns (before: seq<string>, after: seq<string>)
    requires t.Valid() && ChunksOf(elements, spec, embedMax, t).Ok? && g < |JoinTexts(elements)|
    requires
      var e := JoinTexts(elements)[g];
      e.modality == Table && e.routeReason != "code_block" && !Omitted(e)
    ensures
      var e, bounded := JoinTexts(elements)[g], Bounded(spec, embedMax);
      var tables := t.tables(e.text, Inner(e, bounded, t.count));
      var prefix := BoundedHeading(e.meta.sectionPath, bounded.max, t.count);
      && tables.Ok? && prefix.Ok?
      && ChunkTexts(ChunksOf(elements, spec, embedMax, t).value)
         == before + Kept(e, PartsOr(tables.value, e.text), prefix.value, t) + after
  {
    hide JoinTexts, AllRecords, AllChunks, ElementRecords, Kept, Inner, BoundedHeading, Omitted, PartsOr;
    var joined, bounded := JoinTexts(elements), Bounded(spec, embedMax);
    var front, back := AroundElement(joined, g, bounded, t);
    var own := AllChunks(ElementRecords(joined[g], bounded, t).value, bounded.max, |front|, t.count).value;
    OwnTexts(joined[g], bounded, t, |front|);
    TextsConcat(front + own, back);
    TextsConcat(front, own);
    before, after := ChunkTexts(front), ChunkTexts(back);
  }

  /** End to end for a table split by rows: its chunks are, in order, those of a plan that gives back all its rows, without
      the carried ones and with the pieces of a row joined. */
  lemma RowsSurvive(elements: seq<Element>, spec: ChunkSpec, embedMax: nat, t: Tools, tables: TableChunks.TableTools, g: nat)
    returns (before: seq<string>, items: seq<TableChunks.Item>, after: seq<string>)
    requires t == DocumentTools(t.count, t.paragraphs, t.sentences, t.headingOnly, tables)
    requires t.Valid() && ChunksOf(elements, spec, embedMax, t).Ok? && g < |JoinTexts(elements)|
    requires
      var e := JoinTexts(elements)[g];
      IsTable(e, tables) && SplitByRows(e.text, Inner(e, Bounded(spec, embedMax), t.count), t.count, tables)
    ensures
      var e, bounded := JoinTexts(elements)[g], Bounded(spec, embedMax);
      var lines := TableChunks.NonBlank(SplitLines(e.text));
      var rule := TableChunks.FirstRule(lines, tables.isRule);
      var prefix := BoundedHeading(e.meta.sectionPath, bounded.max, t.count);
      && prefix.Ok? && rule < |lines|
      && TableChunks.Conserves(items, None, lines[rule + 1..])
      && ChunkTexts(ChunksOf(elements, spec, embedMax, t).value)
         == before + Kept(e, PartsOr(TableChunks.Render(lines[..rule + 1], items), e.text), prefix.value, t) + after
  {
    hide JoinTexts, ChunksOf, Kept, BoundedHeading, Omitted, PartsOr, Inner;
    var e, bounded := JoinTexts(elements)[g], Bounded(spec, embedMax);
    before, after := TableStaysWhole(elements, spec, embedMax, t, g);
    items := RowPlan(e.text, Inner(e, bounded, t.count), t.count, tables);
  }

  lemma RowPlan(md: string, spec: ChunkSpec, count: Counter, tables: TableChunks.TableTools) returns (items: seq<TableChunks.Item>)
    requires SplitByRows(md, spec, count, tables) && TableChunks.TableTexts(md, spec, count, tables).Ok?
    ensures
      var lines := TableChunks.NonBlank(SplitLines(md));
      var rule := TableChunks.FirstRule(lines, tables.isRule);
      && rule < |lines| && TableChunks.Conserves(items, None, lines[rule + 1..])
      && TableChunks.TableTexts(md, spec, count, tables) == Ok(TableChunks.Render(lines[..rule + 1], items))
  {
    hide TableChunks.PlanRows, TableChunks.Conserves, TableChunks.Render, TableChunks.RowTooLong, SplitLines, TableChunks.NonBlank;
    var lines := TableChunks.NonBlank(SplitLines(md));
    var rule := TableChunks.FirstRule(lines, tables.isRule);
    var base := count(StrJoin("\n", lines[..rule + 1]));
    items := TableChunks.PlanRows(lines[rule + 1..], false, [], base, spec, count).value;
    TableChunks.RowsConserved(lines[rule + 1..], base, spec, count);
  }

  // ---------------------------------------------------------------- a table that stops the chunking

  function TightElement(): Element {
    var e := ChunkFailures.PlainElement(TightTable());
    e.(modality := Table)
  }

  /** A header of one cell, the rule, and two rows. */
  function TightTable(): string {
    StrJoin("\n", TableFailures.Lines([["a"], ["---"], ["b"], ["c"]]))
  }

  function TightTools(): Tools {
    DocumentTools(TableFailures.Length, ChunkFailures.NoCuts, ChunkFailures.NoCuts, s => false, TightTableTools())
  }

  function TightTableTools(): TableChunks.TableTools {
    TableChunks.TableTools(s => s == TableText.Line(["---"]), TableFailures.NoProse, TableFailures.Reference)
  }

  lemma TightLines()
    ensures
      var lines := TableFailures.Lines([["a"], ["---"], ["b"], ["c"]]);
      && TableChunks.NonBlank(SplitLines(TightTable())) == lines && StrJoin("\n", lines) == TightTable()
      && |lines[0]| == |lines[2]| == |lines[3]| == 5 && |lines[1]| == 7
      && lines[1] == TableText.Line(["---"]) != lines[0]
  {
    hide TableChunks.NonBlank, SplitLines, TableText.Line, TableFailures.Written;
    var table := [["a"], ["---"], ["b"], ["c"]];
    CellsWritten();
    TableFailures.LinesRead(table);
    OneCell("a");
    OneCell("---");
    OneCell("b");
    OneCell("c");
  }

  lemma CellsWritten()
    ensures TableFailures.Written(["a"]) && TableFailures.Written(["---"]) && TableFailures.Written(["b"]) && TableFailures.Written(["c"])
  {
    ShortCell("a");
    ShortCell("b");
    ShortCell("c");
    TableText.RuleCell();
  }

  lemma ShortCell(cell: string)
    requires |cell| == 1 && cell[0] in "abc"
    ensures TableFailures.Written([cell])
  {
  }

  lemma OneCell(cell: string)
    ensures |TableText.Line([cell])| == |cell| + 4
  {
  }

  lemma JoinedLength(lines: seq<string>)
    requires lines != []
    ensures |StrJoin("\n", lines)| == TableChunks.TokenSum(lines, TableFailures.Length) + |lines| - 1
  {
    if |lines| > 1 {
      JoinedLength(lines[1..]);
    } else {
      TableChunks.TokenSumSmall(lines[0], lines[0], TableFailures.Length);
    }
  }

  lemma SumOf(a: string, b: string, rest: seq<string>)
    ensures TableChunks.TokenSum([a, b] + rest, TableFailures.Length) == |a| + |b| + TableChunks.TokenSum(rest, TableFailures.Length)
  {
    assert ([a, b] + rest)[1..] == [b] + rest && ([b] + rest)[1..] == rest;
  }

  /** A rule in the second of four short lines, and room for all but the line feeds. */
  lemma TightSplit(lines: seq<string>, md: string, spec: ChunkSpec, tables: TableChunks.TableTools)
    requires |lines| == 4 && |lines[0]| == |lines[2]| == |lines[3]| == 5 && |lines[1]| == 7
    requires TableChunks.NonBlank(SplitLines(md)) == lines && StrJoin("\n", lines) == md
    requires tables.isRule(lines[1]) && !tables.isRule(lines[0]) && spec == ChunkSpec(24, 0, 24, 0)
    ensures |md| == 25 && TableChunks.TableTexts(md, spec, TableFailures.Length, tables) == Ok([md])
  {
    hide SplitLines, TableChunks.NonBlank, TableChunks.Render, TableChunks.WideTable, StrJoin, TableChunks.PlanRows;
    hide TableChunks.RowTooLong, TableChunks.TokenSum, TableChunks.FirstRule;
    SecondIsRule(lines, tables.isRule);
    TightLengths(lines);
    TightRows(lines[..2], lines[2..], spec);
  }

  lemma TightLengths(lines: seq<string>)
    requires |lines| == 4 && |lines[0]| == |lines[2]| == |lines[3]| == 5 && |lines[1]| == 7
    ensures |StrJoin("\n", lines)| == 25 && |StrJoin("\n", lines[..2])| == 13
    ensures !TableChunks.RowTooLong(lines[..2], lines[2..], 24, TableFailures.Length)
    ensures lines[..2] + lines[2..] == lines
  {
    hide StrJoin, TableChunks.TokenSum;
    var a, rule, b, c := lines[0], lines[1], lines[2], lines[3];
    var prefix := lines[..2];
    assert lines == [a, rule] + [b, c] && prefix == [a, rule] + [];
    TableChunks.TokenSumSmall(b, c, TableFailures.Length);
    NoTokens();
    SumOf(a, rule, []);
    SumOf(a, rule, [b, c]);
    JoinedLength(prefix);
    JoinedLength(lines);
    forall row: string | |row| == 5 ensures |TableChunks.UnderHeader(prefix, [row])| == 19 {
      SumOf(a, rule, [row]);
      TableChunks.TokenSumSmall(row, row, TableFailures.Length);
      assert prefix + [row] == [a, rule] + [row];
      JoinedLength(prefix + [row]);
    }
  }

  lemma TightRows(prefix: seq<string>, rows: seq<string>, spec: ChunkSpec)
    requires |rows| == 2 && |rows[0]| == |rows[1]| == 5 && spec == ChunkSpec(24, 0, 24, 0)
    ensures TableChunks.RenderPlan(prefix, TableChunks.PlanRows(rows, false, [], 13, spec, TableFailures.Length))
         == Ok([StrJoin("\n", prefix + rows)])
  {
    hide TableChunks.PlanRows, StrJoin;
    assert rows == [rows[0], rows[1]];
    PlanOfTwo(rows[0], rows[1], spec);
    TableChunks.RenderOne(prefix, TableChunks.Packed(false, rows));
  }

  lemma NoTokens()
    ensures TableChunks.TokenSum([], TableFailures.Length) == 0
  {
  }

  lemma SecondIsRule(lines: seq<string>, isRule: string -> bool)
    requires |lines| > 1 && isRule(lines[1]) && !isRule(lines[0])
    ensures TableChunks.FirstRule(lines, isRule) == 1
  {
    assert lines[1..][0] == lines[1];
  }

  lemma PlanOfTwo(b: string, c: string, spec: ChunkSpec)
    requires |b| == |c| == 5 && spec == ChunkSpec(24, 0, 24, 0)
    ensures TableChunks.PlanRows([b, c], false, [], 13, spec, TableFailures.Length) == Ok([TableChunks.Packed(false, [b, c])])
  {
    hide TableChunks.TokenSum;
    NoTokens();
    TableChunks.TokenSumSmall(b, b, TableFailures.Length);
    assert [b, c][1..] == [c] && [c][1..] == [] && [] + [b] == [b] && [b] + [c] == [b, c];
    assert TableChunks.PlanRows([], false, [b, c], 13, spec, TableFailures.Length) == Ok([TableChunks.Packed(false, [b, c])]);
    assert TableChunks.PlanRows([c], false, [b], 13, spec, TableFailures.Length) == Ok([TableChunks.Packed(false, [b, c])]);
  }

  lemma LengthIsModest()
    ensures Modest(TableFailures.Length) && TightTools().Valid() && TightTools().count == TableFailures.Length
  {
  }

  /** One table record, and it is too long: chunking stops. */
  lemma LongTableElement(e: Element, spec: ChunkSpec, t: Tools, part: string)
    requires t.Valid() && spec.target <= spec.max && e.modality == Table && e.routeReason != "code_block" && !Omitted(e)
    requires e.meta.sectionPath.None? && e.meta.sectionSource.None? && t.tables(e.text, spec) == Ok([part])
    requires part != "" && t.count(part) > spec.max >= 3 && Pieces(part, spec.max, t.count).Ok?
    ensures AllRecords([e], spec, t).Ok? && AllChunks(AllRecords([e], spec, t).value, spec.max, 0, t.count) == Err(TableSplit)
  {
    hide Pieces, RecordChunks;
    OneElement(e, spec, t);
    var r := RecordOf(e, part, None, "");
    assert PartRecords(e, [part], [], 1, "", t) == [];
    assert PartRecords(e, [part], [], 0, "", t) == [r] + [];
    LongTableStops(r, "", spec.max, 0, t.count);
    assert RecordChunks(r, spec.max, 0, t.count) == Err(TableSplit);
  }

  /** A concrete table, with characters counted and a limit of 24: its rows are packed by sums that leave out line feeds,
      the chunk counts 25, and the last split refuses to cut it. */
  lemma TightTableRaises()
    ensures
      var spec := ChunkSpec(24, 0, 24, 0);
      && Modest(TableFailures.Length) && TightTools().Valid()
      && ChunksOf([TightElement()], spec, 24, TightTools()) == Err(TableSplit)
  {
    hide *;
    var e, spec, t := TightElement(), ChunkSpec(24, 0, 24, 0), TightTools();
    LengthIsModest();
    TightLines();
    TightParts();
    TableFailures.LengthSplits(TightTable(), 24);
    LongTableElement(e, spec, t, TightTable());
    ChunkFailures.JoinedOne(e);
    BoundedItself(spec);
    RaisedByLastSplit([e], spec, 24, t);
  }

  lemma BoundedItself(spec: ChunkSpec)
    requires spec.target <= spec.max && spec.min < spec.max
    ensures Bounded(spec, spec.max) == spec && Limit(spec, spec.max) == spec.max
  {
  }

  lemma TightParts()
    ensures
      var e, t := TightElement(), TightTools();
      && e.modality == Table && e.routeReason != "code_block" && !Omitted(e) && e.text == TightTable() != ""
      && e.meta.sectionPath.None? && e.meta.sectionSource.None?
      && t.tables(e.text, ChunkSpec(24, 0, 24, 0)) == Ok([TightTable()]) && t.count(TightTable()) == 25
  {
    hide TableChunks.TableTexts, TightTable;
    TightLines();
    var lines := TableFailures.Lines([["a"], ["---"], ["b"], ["c"]]);
    TightSplit(lines, TightTable(), ChunkSpec(24, 0, 24, 0), TightTableTools());
  }

  lemma RaisedByLastSplit(elements: seq<Element>, spec: ChunkSpec, embedMax: nat, t: Tools)
    requires t.Valid() && JoinTexts(elements) == elements && Limit(spec, embedMax) >= 3 && spec.target > 0
    requires Bounded(spec, embedMax) == spec && AllRecords(elements, spec, t).Ok?
    requires AllChunks(AllRecords(elements, spec, t).value, spec.max, 0, t.count) == Err(TableSplit)
    ensures ChunksOf(elements, spec, embedMax, t) == Err(TableSplit)
  {
    hide AllRecords, AllChunks, JoinTexts;
  }
}

/** What the table splitter does, in rows, cells and numbers: when a chunk is closed, a row repeated or cut, what the records
    of a cell look like, and which form is chosen. */
module TableEffects {
  import opened ChunkText
  import opened Decimals
  import opened HardSplit
  import opened Prelude
  import opened PythonText
  import opened TableChunks
  import opened TableText

  // ---------------------------------------------------------------- rows under a repeated header

  /** The rows were collected one after the other: each fits the limit beside the header, and each after the first (after
      the second, if the first was repeated) stays within the target with the rows before it. */
  predicate Collected(carried: bool, rows: seq<string>, base: nat, spec: ChunkSpec, count: Counter) {
    && rows != []
    && (forall k :: (if carried then 1 else 0) <= k < |rows| ==> base + count(rows[k]) <= spec.max)
    && (forall k :: (if carried then 2 else 1) <= k < |rows| ==> base + TokenSum(rows[..k], count) + count(rows[k]) <= spec.target)
  }

  /** A row is cut exactly when it is too long beside the header, into pieces for what the header leaves of the target. */
  predicate Cut(pieces: seq<string>, base: nat, spec: ChunkSpec, count: Counter) {
    && base + count(Joined(pieces)) > spec.max
    && Pieces(Joined(pieces), if spec.target > base then spec.target - base else 1, count) == Ok(pieces)
  }

  predicate GoodItem(item: Item, base: nat, spec: ChunkSpec, count: Counter) {
    match item
    case Packed(carried, rows) => Collected(carried, rows, base, spec, count)
    case SplitRow(pieces) => Cut(pieces, base, spec, count)
  }

  /** Between two chunks of whole rows: the next row would have taken the first above the target, and its last row is repeated
      exactly when it is not empty and fits the limit together with the next one. After a cut row nothing is repeated. */
  predicate ClosedFor(previous: Option<Item>, next: Item, base: nat, spec: ChunkSpec, count: Counter) {
    next.Packed? && next.rows != [] ==>
      if previous.Some? && previous.value.Packed? && previous.value.rows != [] then
        var rows, last := previous.value.rows, previous.value.rows[|previous.value.rows| - 1];
        var own := if next.carried then 1 else 0;
        && own < |next.rows|
        && base + TokenSum(rows, count) + count(next.rows[own]) > spec.target
        && (next.carried ==> next.rows[0] == last)
        && (next.carried <==> last != "" && base + count(last) + count(next.rows[own]) <= spec.max)
      else !next.carried
  }

  predicate Greedy(previous: Option<Item>, items: seq<Item>, base: nat, spec: ChunkSpec, count: Counter)
    decreases |items|
  {
    items == [] || (&& GoodItem(items[0], base, spec, count) && ClosedFor(previous, items[0], base, spec, count)
                    && Greedy(Some(items[0]), items[1..], base, spec, count))
  }

  /** The rows collected so far. */
  predicate Underway(previous: Option<Item>, carried: bool, current: seq<string>, base: nat, spec: ChunkSpec, count: Counter) {
    if current == [] then !carried && (previous.Some? ==> previous.value.SplitRow?)
    else Collected(carried, current, base, spec, count) && ClosedFor(previous, Packed(carried, current), base, spec, count)
         && (carried ==> |current| > 1)
  }

  lemma GreedyFirst(previous: Option<Item>, item: Item, rest: seq<Item>, base: nat, spec: ChunkSpec, count: Counter)
    requires GoodItem(item, base, spec, count) && ClosedFor(previous, item, base, spec, count)
    requires Greedy(Some(item), rest, base, spec, count)
    ensures Greedy(previous, [item] + rest, base, spec, count)
  {
    hide GoodItem, ClosedFor;
    assert ([item] + rest)[1..] == rest;
  }

  lemma UnderwayIsItem(previous: Option<Item>, carried: bool, current: seq<string>, base: nat, spec: ChunkSpec, count: Counter)
    requires Underway(previous, carried, current, base, spec, count) && current != []
    ensures GoodItem(Packed(carried, current), base, spec, count) && ClosedFor(previous, Packed(carried, current), base, spec, count)
  {
  }

  lemma UnderwayGrows(previous: Option<Item>, carried: bool, current: seq<string>, row: string, base: nat, spec: ChunkSpec, count: Counter)
    requires Underway(previous, carried, current, base, spec, count) && base + count(row) <= spec.max
    requires current == [] || base + TokenSum(current, count) + count(row) <= spec.target
    ensures Underway(previous, carried, current + [row], base, spec, count)
  {
    hide TokenSum;
    var grown := current + [row];
    assert grown[..|current|] == current;
    assert forall k :: 0 <= k < |current| ==> grown[k] == current[k] && grown[..k] == current[..k];
  }

  lemma UnderwayAnew(carried: bool, current: seq<string>, keep: bool, row: string, base: nat, spec: ChunkSpec, count: Counter)
    requires current != [] && base + count(row) <= spec.max && base + TokenSum(current, count) + count(row) > spec.target
    requires keep == Carries(current[|current| - 1], row, base, spec, count)
    ensures Underway(Some(Packed(carried, current)), keep, if keep then [current[|current| - 1], row] else [row], base, spec, count)
  {
    hide TokenSum;
  }

  lemma CutIsGood(row: string, base: nat, spec: ChunkSpec, count: Counter)
    requires base + count(row) > spec.max && Pieces(row, PieceBudget(spec, base), count).Ok?
    ensures GoodItem(SplitRow(Pieces(row, PieceBudget(spec, base), count).value), base, spec, count)
  {
    hide Pieces, Joined;
    PiecesPartition(row, PieceBudget(spec, base), count);
    assert PieceBudget(spec, base) == if spec.target > base then spec.target - base else 1;
  }

  lemma {:induction false} PlanGreedy(rows: seq<string>, previous: Option<Item>, carried: bool, current: seq<string>, base: nat,
                                      spec: ChunkSpec, count: Counter)
    requires PlanRows(rows, carried, current, base, spec, count).Ok? && Underway(previous, carried, current, base, spec, count)
    ensures Greedy(previous, PlanRows(rows, carried, current, base, spec, count).value, base, spec, count)
    decreases |rows|, 1
  {
    hide Underway, Collected, GoodItem, ClosedFor, Greedy, Carries, TokenSum, Pieces, PieceBudget;
    assert Greedy(Some(Packed(carried, current)), [], base, spec, count) by { NothingGreedy(Some(Packed(carried, current)), base, spec, count); }
    if current != [] {
      UnderwayIsItem(previous, carried, current, base, spec, count);
    }
    if rows == [] {
      LastGreedy(previous, carried, current, base, spec, count);
    } else if base + count(rows[0]) > spec.max {
      SplitGreedy(rows, previous, carried, current, base, spec, count);
    } else if current != [] && base + TokenSum(current, count) + count(rows[0]) > spec.target {
      var keep := Carries(current[|current| - 1], rows[0], base, spec, count);
      var next := if keep then [current[|current| - 1], rows[0]] else [rows[0]];
      UnderwayAnew(carried, current, keep, rows[0], base, spec, count);
      PlanGreedy(rows[1..], Some(Packed(carried, current)), keep, next, base, spec, count);
      GreedyFirst(previous, Packed(carried, current), PlanRows(rows[1..], keep, next, base, spec, count).value, base, spec, count);
    } else {
      UnderwayGrows(previous, carried, current, rows[0], base, spec, count);
      PlanGreedy(rows[1..], previous, carried, current + [rows[0]], base, spec, count);
    }
  }

  lemma NothingGreedy(previous: Option<Item>, base: nat, spec: ChunkSpec, count: Counter)
    ensures Greedy(previous, [], base, spec, count)
  {
  }

  lemma LastGreedy(previous: Option<Item>, carried: bool, current: seq<string>, base: nat, spec: ChunkSpec, count: Counter)
    requires Underway(previous, carried, current, base, spec, count)
    ensures Greedy(previous, Flushed(carried, current), base, spec, count)
  {
    hide Collected, ClosedFor;
    if current != [] {
      UnderwayIsItem(previous, carried, current, base, spec, count);
      assert Flushed(carried, current)[1..] == [];
    }
  }

  /** The step of the induction for a row that is cut. */
  lemma {:induction false} SplitGreedy(rows: seq<string>, previous: Option<Item>, carried: bool, current: seq<string>, base: nat,
                                       spec: ChunkSpec, count: Counter)
    requires rows != [] && base + count(rows[0]) > spec.max
    requires PlanRows(rows, carried, current, base, spec, count).Ok? && Underway(previous, carried, current, base, spec, count)
    ensures Greedy(previous, PlanRows(rows, carried, current, base, spec, count).value, base, spec, count)
    decreases |rows|, 0
  {
    hide Underway, Collected, GoodItem, ClosedFor, Greedy, TokenSum, Pieces, PieceBudget;
    var cut := SplitRow(Pieces(rows[0], PieceBudget(spec, base), count).value);
    var rest := PlanRows(rows[1..], false, [], base, spec, count).value;
    assert Underway(Some(cut), false, [], base, spec, count) by { AfterCut(cut, base, spec, count); }
    PlanGreedy(rows[1..], Some(cut), false, [], base, spec, count);
    CutIsGood(rows[0], base, spec, count);
    CutClosed(previous, cut, base, spec, count);
    CutClosed(Some(Packed(carried, current)), cut, base, spec, count);
    GreedyFirst(previous, cut, rest, base, spec, count);
    GreedyFirst(Some(Packed(carried, current)), cut, rest, base, spec, count);
    if current != [] {
      UnderwayIsItem(previous, carried, current, base, spec, count);
      GreedyFirst(previous, Packed(carried, current), [cut] + rest, base, spec, count);
      assert [Packed(carried, current)] + ([cut] + rest) == [Packed(carried, current)] + [cut] + rest;
    } else {
      assert [] + [cut] + rest == [cut] + rest;
    }
  }

  lemma AfterCut(cut: Item, base: nat, spec: ChunkSpec, count: Counter)
    requires cut.SplitRow?
    ensures Underway(Some(cut), false, [], base, spec, count)
  {
  }

  lemma CutClosed(previous: Option<Item>, cut: Item, base: nat, spec: ChunkSpec, count: Counter)
    requires cut.SplitRow?
    ensures ClosedFor(previous, cut, base, spec, count)
  {
  }

  lemma {:induction false} GreedyAt(previous: Option<Item>, items: seq<Item>, base: nat, spec: ChunkSpec, count: Counter, k: nat)
    requires Greedy(previous, items, base, spec, count) && k < |items|
    ensures GoodItem(items[k], base, spec, count)
    ensures ClosedFor(if k == 0 then previous else Some(items[k - 1]), items[k], base, spec, count)
    decreases k
  {
    hide GoodItem, ClosedFor;
    if k > 0 {
      GreedyAt(Some(items[0]), items[1..], base, spec, count, k - 1);
    }
  }

  /** When a chunk is closed, a row repeated, and a row cut, over a whole table: together with what the plan conserves, this
      leaves no choice. */
  lemma RowsArePackedGreedily(rows: seq<string>, base: nat, spec: ChunkSpec, count: Counter, k: nat)
    requires PlanRows(rows, false, [], base, spec, count).Ok? && k < |PlanRows(rows, false, [], base, spec, count).value|
    ensures
      var items := PlanRows(rows, false, [], base, spec, count).value;
      && GoodItem(items[k], base, spec, count)
      && ClosedFor(if k == 0 then None else Some(items[k - 1]), items[k], base, spec, count)
  {
    hide GoodItem, ClosedFor, Greedy;
    assert Underway(None, false, [], base, spec, count);
    PlanGreedy(rows, None, false, [], base, spec, count);
    GreedyAt(None, PlanRows(rows, false, [], base, spec, count).value, base, spec, count, k);
  }

  /** The rows that an item adds: with those of the items before and behind it, the rows of the table. */
  lemma AddedMeans(item: Item)
    ensures item.Packed? ==> Added(item) == item.rows[if item.carried && |item.rows| > 0 then 1 else 0..]
    ensures item.SplitRow? ==> Added(item) == [Joined(item.pieces)]
  {
  }

  /** The texts of an item: the header lines, then its rows, or one of its pieces, line by line. */
  lemma RenderedMeans(prefix: seq<string>, item: Item)
    requires prefix != [] && (item.Packed? ==> item.rows != [])
    ensures item.Packed? ==> RenderItem(prefix, item) == [StrJoin("\n", prefix) + "\n" + StrJoin("\n", item.rows)]
    ensures
      item.SplitRow? ==>
        && |RenderItem(prefix, item)| == |item.pieces|
        && forall k :: 0 <= k < |item.pieces| ==> RenderItem(prefix, item)[k] == StrJoin("\n", prefix) + "\n" + item.pieces[k]
  {
    hide StrJoin;
    if item.Packed? {
      JoinPrefix("\n", prefix, item.rows);
    } else {
      forall k | 0 <= k < |item.pieces| ensures RenderItem(prefix, item)[k] == StrJoin("\n", prefix) + "\n" + item.pieces[k] {
        JoinPrefix("\n", prefix, [item.pieces[k]]);
        JoinOfOne("\n", item.pieces[k]);
      }
    }
  }

  lemma JoinOfOne(separator: string, only: string)
    ensures StrJoin(separator, [only]) == only
  {
  }

  // ---------------------------------------------------------------- cell by cell

  /** The value that is shown: an empty cell is said to be empty. */
  function Told(value: string): string {
    if |value| > 0 then value else "(empty)"
  }

  /** The wide form of a cell: its label must leave room for more than three tokens, its value is cut to what the label leaves
      but two, and every record must fit. */
  lemma WidePiecesMean(cell: Labelled, spec: ChunkSpec, count: Counter)
    ensures
      var taken, shown := count(cell.tag), WidePieces(cell, spec, count);
      if taken + 5 > spec.max then shown == Err(IdentityTooLarge)
      else
        var pieces := Pieces(Told(cell.value), spec.max - taken - 2, count);
        if pieces.Err? then shown == Err(pieces.error)
        else if forall k :: 0 <= k < |pieces.value| ==> count(cell.tag + pieces.value[k]) <= spec.max then shown == pieces
        else shown == Err(BudgetViolated)
  {
    hide Pieces;
    assert Told(cell.value) == Shown(cell.value);
  }

  /** The pieces for this budget stay within the limit behind their label. */
  predicate FitsAt(cell: Labelled, budget: nat, max: nat, count: Counter)
    requires budget >= 1
  {
    var pieces := Pieces(Told(cell.value), budget, count);
    pieces.Ok? && forall k :: 0 <= k < |pieces.value| ==> count(cell.tag + pieces.value[k]) <= max
  }

  /** Every budget from this one to the first that was tried allows to cut the value, but some record does not fit. */
  predicate TooWide(cell: Labelled, budget: nat, first: nat, max: nat, count: Counter)
    requires budget >= 1
  {
    forall b: nat :: budget <= b <= first ==> Pieces(Told(cell.value), b, count).Ok? && !FitsAt(cell, b, max, count)
  }

  /** The compact form takes the largest budget at which all records of the value fit. */
  lemma {:induction false} CompactPiecesMean(cell: Labelled, budget: nat, first: nat, max: nat, count: Counter) returns (last: nat)
    requires 1 <= budget <= first && TooWide(cell, budget + 1, first, max, count)
    ensures
      var shown := CompactPieces(cell, budget, max, count);
      && 1 <= last <= first && TooWide(cell, last + 1, first, max, count)
      && (shown.Ok? ==> FitsAt(cell, last, max, count) && shown == Pieces(Told(cell.value), last, count))
      && (shown.Err? ==>
            if Pieces(Told(cell.value), last, count).Err? then shown == Pieces(Told(cell.value), last, count)
            else shown == Err(IdentityTooLarge) && last == 1 && TooWide(cell, 1, first, max, count))
    decreases budget
  {
    hide Pieces;
    if FitsAt(cell, budget, max, count) || Pieces(Told(cell.value), budget, count).Err? || budget == 1 {
      last := budget;
    } else {
      last := CompactPiecesMean(cell, budget - 1, first, max, count);
    }
  }

  lemma CompactCellMeans(cell: Labelled, spec: ChunkSpec, count: Counter) returns (last: nat)
    ensures
      var taken, shown := count(cell.tag), CompactCell(cell, spec, count);
      if taken + 3 > spec.max then shown == Err(IdentityTooLarge)
      else
        var first := spec.max - taken - 2;
        && 1 <= last <= first && TooWide(cell, last + 1, first, spec.max, count)
        && (shown.Ok? ==> FitsAt(cell, last, spec.max, count) && shown == Pieces(Told(cell.value), last, count))
        && (shown.Err? ==>
              if Pieces(Told(cell.value), last, count).Err? then shown == Pieces(Told(cell.value), last, count)
              else shown == Err(IdentityTooLarge) && TooWide(cell, 1, first, spec.max, count))
  {
    hide FitsAt, Pieces, CompactPieces;
    last := 0;
    if count(cell.tag) + 3 <= spec.max {
      var first := spec.max - count(cell.tag) - 2;
      last := CompactPiecesMean(cell, first, first, spec.max, count);
    }
  }

  /** The label of a cell in the wide form. */
  function WideLabel(caption: string, row: nat, column: nat, header: string, key: string): string {
    (if |caption| > 0 then caption + "\n" else "")
    + "Row " + Decimal(row + 1) + "; column " + Decimal(column + 1) + " (" + header + "); key " + key + ": "
  }

  lemma {:induction false} RowCellsMean(caption: string, headers: seq<string>, cells: seq<string>, row: nat, column: nat, k: nat)
    requires |cells| == |headers| && column <= k < |headers|
    ensures RowCells(caption, headers, cells, row + 1, column)[k - column]
         == Labelled(WideLabel(caption, row, k, headers[k], cells[0]), cells[k])
    decreases |headers| - column
  {
    if column < k {
      RowCellsMean(caption, headers, cells, row, column + 1, k);
    }
  }

  /** The place of a cell in a list that goes row by row. */
  lemma RowBehind(first: seq<Labelled>, rest: seq<Labelled>, row: nat, column: nat)
    requires row > 0 && (row - 1) * |first| + column < |rest|
    ensures row * |first| + column < |first + rest|
    ensures (first + rest)[row * |first| + column] == rest[(row - 1) * |first| + column]
  {
    assert row * |first| == |first| + (row - 1) * |first|;
  }

  lemma WideFirst(caption: string, headers: seq<string>, parsed: seq<seq<string>>, row: nat)
    requires Rectangular(headers, parsed) && parsed != []
    ensures Rectangular(headers, parsed[1..])
    ensures WideCells(caption, headers, parsed, row) == RowCells(caption, headers, parsed[0], row, 0) + WideCells(caption, headers, parsed[1..], row + 1)
  {
    hide RowCells;
  }

  /** The records of the wide form are those of the cells, row by row and column by column, each under the caption, with the
      numbers of its row and column counted from 1, the header of the column, and the first cell of the row. */
  lemma {:induction false} WideCellsMean(caption: string, headers: seq<string>, parsed: seq<seq<string>>, from: nat, row: nat, column: nat)
    requires Rectangular(headers, parsed) && row < |parsed| && column < |headers|
    ensures
      var list := WideCells(caption, headers, parsed, from + 1);
      && |list| == |parsed| * |headers|
      && row * |headers| + column < |list|
      && list[row * |headers| + column]
         == Labelled(WideLabel(caption, from + row, column, headers[column], parsed[row][0]), parsed[row][column])
    decreases |parsed|
  {
    hide RowCells, WideCells, WideLabel;
    WideFirst(caption, headers, parsed, from + 1);
    WideLength(caption, headers, parsed, from + 1);
    var first, rest := RowCells(caption, headers, parsed[0], from + 1, 0), WideCells(caption, headers, parsed[1..], from + 2);
    if row == 0 {
      RowCellsMean(caption, headers, parsed[0], from, 0, column);
    } else {
      WideCellsMean(caption, headers, parsed[1..], from + 1, row - 1, column);
      RowBehind(first, rest, row, column);
    }
  }

  lemma {:induction false} WideLength(caption: string, headers: seq<string>, parsed: seq<seq<string>>, row: nat)
    requires Rectangular(headers, parsed)
    ensures |WideCells(caption, headers, parsed, row)| == |parsed| * |headers|
    decreases |parsed|
  {
    if parsed != [] {
      hide RowCells, WideCells;
      WideFirst(caption, headers, parsed, row);
      WideLength(caption, headers, parsed[1..], row + 1);
      OneMore(|parsed|, |headers|);
    }
  }

  lemma OneMore(n: nat, width: nat)
    requires n > 0
    ensures n * width == width + (n - 1) * width
  {
  }

  // ---------------------------------------------------------------- the compact form

  lemma {:induction false} ColumnHeadersMean(headers: seq<string>, column: nat, k: nat)
    requires column <= k < |headers|
    ensures |ColumnHeaders(headers, column)| == |headers| - column
    ensures ColumnHeaders(headers, column)[k - column] == Labelled("column " + Decimal(k + 1) + " header", headers[k])
    decreases |headers| - column
  {
    if column < k {
      ColumnHeadersMean(headers, column + 1, k);
    } else if column + 1 < |headers| {
      ColumnHeadersMean(headers, column + 1, column + 1);
    }
  }

  lemma {:induction false} CompactRowMeans(cells: seq<string>, row: nat, column: nat, k: nat)
    requires column <= k < |cells|
    ensures |CompactRow(cells, row, column)| == |cells| - column
    ensures CompactRow(cells, row, column)[k - column] == Labelled("Row " + Decimal(row) + "; column " + Decimal(k + 1), cells[k])
    decreases |cells| - column
  {
    if column < k {
      CompactRowMeans(cells, row, column + 1, k);
    } else if column + 1 < |cells| {
      CompactRowMeans(cells, row, column + 1, column + 1);
    }
  }

  lemma {:induction false} CompactRowsMean(headers: seq<string>, parsed: seq<seq<string>>, from: nat, row: nat, column: nat)
    requires Rectangular(headers, parsed) && row < |parsed| && column < |headers|
    ensures
      var list := CompactRows(parsed, from + 1);
      && row * |headers| + column < |list|
      && list[row * |headers| + column]
         == Labelled("Row " + Decimal(from + row + 1) + "; column " + Decimal(column + 1), parsed[row][column])
    decreases |parsed|
  {
    hide CompactRow, Decimal;
    var first, rest := CompactRow(parsed[0], from + 1, 0), CompactRows(parsed[1..], from + 2);
    assert CompactRows(parsed, from + 1) == first + rest;
    hide CompactRows;
    assert Rectangular(headers, parsed[1..]);
    CompactRowMeans(parsed[0], from + 1, 0, column);
    if row > 0 {
      CompactRowsMean(headers, parsed[1..], from + 1, row - 1, column);
      RowBehind(first, rest, row, column);
    }
  }

  lemma Behind(top: seq<Labelled>, middle: seq<Labelled>, last: seq<Labelled>, i: nat, j: nat)
    requires i < |middle| && j < |last|
    ensures (top + middle + last)[|top| + i] == middle[i]
    ensures |top| + |middle| + j < |top + middle + last| && (top + middle + last)[|top| + |middle| + j] == last[j]
  {
  }

  /** The records of the compact form, in their order, before they are put under the name of the table. */
  function PlainFields(caption: string, headers: seq<string>, parsed: seq<seq<string>>): seq<Labelled> {
    (if |caption| > 0 then [Labelled("caption", caption)] else []) + ColumnHeaders(headers, 0) + CompactRows(parsed, 1)
  }

  /** First the caption, if there is one, then the headers, then the cells with the numbers of their row and column. */
  lemma PlainFieldsMean(caption: string, headers: seq<string>, parsed: seq<seq<string>>, row: nat, column: nat, at: nat)
    requires Rectangular(headers, parsed) && row < |parsed| && column < |headers| && at == row * |headers| + column
    ensures
      var fields, top := PlainFields(caption, headers, parsed), if |caption| > 0 then 1 else 0;
      && (|caption| > 0 ==> |fields| > 0 && fields[0] == Labelled("caption", caption))
      && top + |headers| + at < |fields|
      && fields[top + column] == Labelled("column " + Decimal(column + 1) + " header", headers[column])
      && fields[top + |headers| + at]
         == Labelled("Row " + Decimal(row + 1) + "; column " + Decimal(column + 1), parsed[row][column])
  {
    hide Decimal;
    ColumnHeadersMean(headers, 0, column);
    CompactRowsMean(headers, parsed, 0, row, column);
    hide *;
    var top := if |caption| > 0 then [Labelled("caption", caption)] else [];
    assert PlainFields(caption, headers, parsed) == top + ColumnHeaders(headers, 0) + CompactRows(parsed, 1) by { FieldsInOrder(caption, headers, parsed); }
    Behind(top, ColumnHeaders(headers, 0), CompactRows(parsed, 1), column, at);
  }

  lemma FieldsInOrder(caption: string, headers: seq<string>, parsed: seq<seq<string>>)
    ensures PlainFields(caption, headers, parsed)
         == (if |caption| > 0 then [Labelled("caption", caption)] else []) + ColumnHeaders(headers, 0) + CompactRows(parsed, 1)
  {
  }

  /** The compact form names the table in every record. */
  lemma CompactFieldsMean(reference: string, caption: string, headers: seq<string>, parsed: seq<seq<string>>)
    ensures
      var fields, plain := CompactFields(reference, caption, headers, parsed), PlainFields(caption, headers, parsed);
      |fields| == |plain|
      && forall k :: 0 <= k < |fields| ==> fields[k] == Labelled("Table " + reference + "; " + plain[k].tag + ": ", plain[k].value)
  {
    hide ColumnHeaders, CompactRows;
  }

  // ---------------------------------------------------------------- which form

  /** The header lines of a table end with its first rule, and blank lines are no part of it. A text without a rule below a
      line is no table; one within the limit is kept whole; one with a row that is too long even alone is cut cell by cell, in
      the compact form if a label is too long; all others are cut by rows. */
  lemma FormMeans(md: string, spec: ChunkSpec, count: Counter, t: TableTools, rule: nat)
    ensures
      var lines, chunks := NonBlank(SplitLines(md)), TableTexts(md, spec, count, t);
      && ((forall k :: 0 <= k < |lines| ==> !t.isRule(lines[k])) || (|lines| > 0 && t.isRule(lines[0])) ==> chunks == t.prose(md, spec))
      && (0 < rule < |lines| && t.isRule(lines[rule]) && (forall k :: 0 <= k < rule ==> !t.isRule(lines[k])) ==>
            if count(md) <= spec.max then chunks == Ok([md])
            else
              var header := StrJoin("\n", lines[..rule + 1]);
              var rows := lines[rule + 1..];
              if forall k :: 0 <= k < |rows| ==> count(header + "\n" + rows[k]) <= spec.max then
                chunks == RenderPlan(lines[..rule + 1], PlanRows(rows, false, [], count(header), spec, count))
              else chunks == WideTable(lines[rule - 1], rows, spec, count, StrJoin("\n", lines[..rule - 1]), t.reference))
  {
    hide NonBlank, SplitLines, StrJoin, PlanRows, WideTable, RenderPlan, UnderHeader, FirstRule;
    var lines := NonBlank(SplitLines(md));
    FirstRuleIs(lines, t.isRule, rule);
    if 0 < rule < |lines| {
      TooLongMeans(lines[..rule + 1], lines[rule + 1..], spec.max, count);
    }
  }

  lemma TooLongMeans(prefix: seq<string>, rows: seq<string>, max: nat, count: Counter)
    requires prefix != []
    ensures RowTooLong(prefix, rows, max, count) <==> !forall k :: 0 <= k < |rows| ==> count(StrJoin("\n", prefix) + "\n" + rows[k]) <= max
  {
    hide StrJoin;
    forall k | 0 <= k < |rows| ensures UnderHeader(prefix, [rows[k]]) == StrJoin("\n", prefix) + "\n" + rows[k] {
      JoinPrefix("\n", prefix, [rows[k]]);
      JoinOfOne("\n", rows[k]);
    }
  }

  lemma FirstRuleIs(lines: seq<string>, isRule: string -> bool, rule: nat)
    ensures rule < |lines| && isRule(lines[rule]) && (forall k :: 0 <= k < rule ==> !isRule(lines[k])) ==> FirstRule(lines, isRule) == rule
    ensures (forall k :: 0 <= k < |lines| ==> !isRule(lines[k])) ==> FirstRule(lines, isRule) == |lines|
    ensures |lines| > 0 && isRule(lines[0]) ==> FirstRule(lines, isRule) == 0
  {
  }

  /** Which form a table takes that is cut cell by cell. */
  lemma WideTableMeans(header: string, rows: seq<string>, spec: ChunkSpec, count: Counter, caption: string,
                       reference: (string, string, seq<seq<string>>) -> string)
    ensures
      var headers, parsed := Cells(header), Parsed(rows);
      var table := WideTable(header, rows, spec, count, caption, reference);
      if !Rectangular(headers, parsed) then table == Err(CellCountMismatch)
      else
        var cells := WideCells(caption, headers, parsed, 1);
        if forall k :: 0 <= k < |cells| ==> count(cells[k].tag) + 3 < spec.max then table == Records(cells, true, spec, count)
        else table == Records(CompactFields(reference(caption, header, parsed), caption, headers, parsed), false, spec, count)
  {
    hide Records, WideCells, CompactFields, Cells;
  }

  /** The records of the cells, in order, each its label before a piece. */
  lemma RecordsMean(cells: seq<Labelled>, wide: bool, spec: ChunkSpec, count: Counter)
    requires cells != []
    ensures
      var first := if wide then WidePieces(cells[0], spec, count) else CompactCell(cells[0], spec, count);
      var rest, records := Records(cells[1..], wide, spec, count), Records(cells, wide, spec, count);
      if first.Err? then records == Err(first.error)
      else if rest.Err? then records == rest
      else
        && records.Ok? && |records.value| == |first.value| + |rest.value|
        && (forall k :: 0 <= k < |first.value| ==> records.value[k] == cells[0].tag + first.value[k])
        && records.value[|first.value|..] == rest.value
  {
    hide WidePieces, CompactCell;
  }

  /** The lines of a table that are not blank, in order. */
  lemma {:induction false} NonBlankMeans(lines: seq<string>, more: seq<string>)
    ensures NonBlank(lines + more) == NonBlank(lines) + NonBlank(more)
    ensures |lines| == 1 ==> NonBlank(lines) == if Strip(lines[0]) == "" then [] else lines
  {
    hide Strip;
    if lines == [] {
      assert lines + more == more;
    } else {
      assert (lines + more)[1..] == lines[1..] + more;
      NonBlankMeans(lines[1..], more);
    }
  }
}

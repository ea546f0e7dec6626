/** How long the chunks of a table are: the forms that never exceed the limit, and by how much the row form can. */
module TableBudgets {
  import opened ChunkText
  import opened HardSplit
  import opened Prelude
  import opened PythonText
  import opened TableChunks
  import opened TableText

  // ---------------------------------------------------------------- forms that never exceed the limit

  predicate EachWithin(texts: seq<string>, max: nat, count: Counter) {
    forall k :: 0 <= k < |texts| ==> count(texts[k]) <= max
  }

  lemma {:induction false} RecordsWithin(cells: seq<Labelled>, wide: bool, spec: ChunkSpec, count: Counter)
    requires Records(cells, wide, spec, count).Ok?
    ensures EachWithin(Records(cells, wide, spec, count).value, spec.max, count)
  {
    hide CellPieces;
    if cells != [] {
      CellPiecesFit(cells[0], wide, spec, count);
      RecordsWithin(cells[1..], wide, spec, count);
    }
  }

  lemma WideTableWithin(header: string, rows: seq<string>, spec: ChunkSpec, count: Counter, caption: string,
                        reference: (string, string, seq<seq<string>>) -> string)
    requires WideTable(header, rows, spec, count, caption, reference).Ok?
    ensures EachWithin(WideTable(header, rows, spec, count, caption, reference).value, spec.max, count)
  {
    hide Records, Cells, EachWithin;
    var headers, parsed := Cells(header), Parsed(rows);
    var wide := WideCells(caption, headers, parsed, 1);
    if LabelTooLong(wide, spec, count) {
      RecordsWithin(CompactFields(reference(caption, header, parsed), caption, headers, parsed), false, spec, count);
    } else {
      RecordsWithin(wide, true, spec, count);
    }
  }

  // ---------------------------------------------------------------- the row form

  /** What a chunk of the row form shows below its header. */
  predicate Shows(prefix: seq<string>, item: Item, rows: seq<string>) {
    match item
    case Packed(_, packed) => rows == packed
    case SplitRow(pieces) => |rows| == 1 && rows[0] in pieces
  }

  lemma {:induction false} RenderShows(prefix: seq<string>, items: seq<Item>, chunk: string) returns (item: Item, rows: seq<string>)
    requires chunk in Render(prefix, items)
    ensures item in items && Shows(prefix, item, rows) && chunk == UnderHeader(prefix, rows)
  {
    var first := RenderItem(prefix, items[0]);
    if chunk in first {
      item := items[0];
      match item
      case Packed(_, packed) => rows := packed;
      case SplitRow(pieces) =>
        var k :| 0 <= k < |first| && first[k] == chunk;
        rows := [pieces[k]];
    } else {
      item, rows := RenderShows(prefix, items[1..], chunk);
    }
  }

  lemma {:induction false} JoinedTokens(rows: seq<string>, count: Counter)
    requires Subadditive(count) && rows != []
    ensures count(StrJoin("\n", rows)) + count("\n") <= TokenSum(rows, count) + |rows| * count("\n")
  {
    if |rows| == 1 {
      TokenSumSmall(rows[0], rows[0], count);
    } else {
      var rest := StrJoin("\n", rows[1..]);
      JoinedTokens(rows[1..], count);
      assert count(rows[0] + "\n" + rest) <= count(rows[0] + "\n") + count(rest);
      assert count(rows[0] + "\n") <= count(rows[0]) + count("\n");
    }
  }

  /** The header, and each row with the line feed before it. */
  lemma HeaderTokens(prefix: seq<string>, rows: seq<string>, count: Counter)
    requires Subadditive(count) && prefix != [] && rows != []
    ensures count(UnderHeader(prefix, rows)) <= count(StrJoin("\n", prefix)) + TokenSum(rows, count) + |rows| * count("\n")
  {
    JoinPrefix("\n", prefix, rows);
    JoinedTokens(rows, count);
    var front, back := StrJoin("\n", prefix), StrJoin("\n", rows);
    assert count((front + "\n") + back) <= count(front + "\n") + count(back);
    assert count(front + "\n") <= count(front) + count("\n");
  }

  /** Rows shown alone are within the limit. */
  predicate AloneFits(prefix: seq<string>, item: Item, max: nat, count: Counter) {
    item.Packed? ==> item.rows != [] && (|item.rows| == 1 ==> count(UnderHeader(prefix, item.rows)) <= max)
  }

  predicate AllAloneFit(prefix: seq<string>, items: seq<Item>, max: nat, count: Counter) {
    forall k :: 0 <= k < |items| ==> AloneFits(prefix, items[k], max, count)
  }

  lemma {:induction false} PlanAlone(prefix: seq<string>, rows: seq<string>, carried: bool, current: seq<string>, base: nat,
                                     spec: ChunkSpec, count: Counter)
    requires PlanRows(rows, carried, current, base, spec, count).Ok? && !RowTooLong(prefix, rows, spec.max, count)
    requires |current| == 1 ==> count(UnderHeader(prefix, current)) <= spec.max
    ensures AllAloneFit(prefix, PlanRows(rows, carried, current, base, spec, count).value, spec.max, count)
  {
    hide UnderHeader, TokenSum, Pieces, Carries;
    if rows != [] {
      var row, rest := rows[0], rows[1..];
      assert count(UnderHeader(prefix, [row])) <= spec.max;
      assert !RowTooLong(prefix, rest, spec.max, count) by {
        assert forall k :: 0 <= k < |rest| ==> rest[k] == rows[k + 1];
      }
      if base + count(row) > spec.max {
        PlanAlone(prefix, rest, false, [], base, spec, count);
      } else if current != [] && base + TokenSum(current, count) + count(row) > spec.target {
        var keep := Carries(current[|current| - 1], row, base, spec, count);
        PlanAlone(prefix, rest, keep, if keep then [current[|current| - 1], row] else [row], base, spec, count);
      } else {
        assert current == [] ==> current + [row] == [row];
        PlanAlone(prefix, rest, carried, current + [row], base, spec, count);
      }
    }
  }

  /** A chunk of the row form. */
  ghost predicate RowChunk(prefix: seq<string>, rows: seq<string>, spec: ChunkSpec, count: Counter, chunk: string) {
    var base := count(StrJoin("\n", prefix));
    && prefix != [] && !RowTooLong(prefix, rows, spec.max, count)
    && PlanRows(rows, false, [], base, spec, count).Ok?
    && chunk in Render(prefix, PlanRows(rows, false, [], base, spec, count).value)
  }

  /** For a subadditive counter the row form exceeds the limit at most by the line feeds before its rows: a chunk either is
      within the limit, or shows several rows and exceeds it by no more than their line feeds, or shows a piece of a row
      that was split under its header. */
  lemma RowFormBound(prefix: seq<string>, rows: seq<string>, spec: ChunkSpec, count: Counter, chunk: string)
    returns (item: Item, shown: seq<string>)
    requires Subadditive(count) && spec.target <= spec.max && RowChunk(prefix, rows, spec, count, chunk)
    ensures Shows(prefix, item, shown) && shown != [] && chunk == UnderHeader(prefix, shown)
    ensures item.Packed? ==> count(chunk) <= spec.max || (|shown| >= 2 && count(chunk) <= spec.max + |shown| * count("\n"))
    ensures item.SplitRow? ==>
              count(chunk) <= Max(spec.target, count(StrJoin("\n", prefix)) + 1) + count("\n")
  {
    hide Subadditive, RowTooLong, PlanRows, Pieces, TokenSum, Render, UnderHeader;
    var base := count(StrJoin("\n", prefix));
    var items := PlanRows(rows, false, [], base, spec, count).value;
    item, shown := RenderShows(prefix, items, chunk);
    PlanAlone(prefix, rows, false, [], base, spec, count);
    PlanFits(rows, false, [], base, spec, count);
    var k :| 0 <= k < |items| && items[k] == item;
    assert ItemFits(item, base, spec, count) && AloneFits(prefix, item, spec.max, count);
    HeaderTokens(prefix, shown, count);
    TokenSumSmall(shown[0], shown[0], count);
    assert |shown| == 1 ==> shown == [shown[0]];
  }

  // ---------------------------------------------------------------- when the row form is always within the limit

  /** Tokens of texts put together add up. */
  ghost predicate Additive(count: Counter) {
    forall a: string, b: string :: count(a + b) == count(a) + count(b)
  }

  ghost predicate RowFormAlwaysFits(spec: ChunkSpec, count: Counter) {
    forall prefix: seq<string>, rows: seq<string>, chunk: string ::
      RowChunk(prefix, rows, spec, count, chunk) ==> count(chunk) <= spec.max
  }

  lemma {:induction false} JoinedTokensExact(rows: seq<string>, count: Counter)
    requires Additive(count) && rows != []
    ensures count(StrJoin("\n", rows)) + count("\n") == TokenSum(rows, count) + |rows| * count("\n")
  {
    if |rows| == 1 {
      TokenSumSmall(rows[0], rows[0], count);
    } else {
      var rest := StrJoin("\n", rows[1..]);
      JoinedTokensExact(rows[1..], count);
      assert count(rows[0] + "\n" + rest) == count(rows[0] + "\n") + count(rest);
      assert count(rows[0] + "\n") == count(rows[0]) + count("\n");
    }
  }

  lemma HeaderTokensExact(prefix: seq<string>, rows: seq<string>, count: Counter)
    requires Additive(count) && prefix != [] && rows != []
    ensures count(UnderHeader(prefix, rows)) == count(StrJoin("\n", prefix)) + TokenSum(rows, count) + |rows| * count("\n")
  {
    JoinPrefix("\n", prefix, rows);
    JoinedTokensExact(rows, count);
    var front, back := StrJoin("\n", prefix), StrJoin("\n", rows);
    assert count((front + "\n") + back) == count(front + "\n") + count(back);
    assert count(front + "\n") == count(front) + count("\n");
  }

  lemma {:induction false} NoRowSplit(rows: seq<string>, carried: bool, current: seq<string>, base: nat, spec: ChunkSpec, count: Counter)
    requires forall k :: 0 <= k < |rows| ==> base + count(rows[k]) <= spec.max
    ensures PlanRows(rows, carried, current, base, spec, count).Ok?
    ensures forall item :: item in PlanRows(rows, carried, current, base, spec, count).value ==> item.Packed?
  {
    hide TokenSum, Carries;
    if rows != [] {
      var row, rest := rows[0], rows[1..];
      if current != [] && base + TokenSum(current, count) + count(row) > spec.target {
        var keep := Carries(current[|current| - 1], row, base, spec, count);
        NoRowSplit(rest, keep, if keep then [current[|current| - 1], row] else [row], base, spec, count);
      } else {
        NoRowSplit(rest, carried, current + [row], base, spec, count);
      }
    }
  }

  /** Counting adds up: no row of the row form is split. */
  lemma RowsNotSplit(prefix: seq<string>, rows: seq<string>, spec: ChunkSpec, count: Counter)
    requires Additive(count) && prefix != [] && !RowTooLong(prefix, rows, spec.max, count)
    ensures
      var base := count(StrJoin("\n", prefix));
      && PlanRows(rows, false, [], base, spec, count).Ok?
      && forall item :: item in PlanRows(rows, false, [], base, spec, count).value ==> item.Packed?
  {
    hide Additive, UnderHeader, PlanRows;
    var base := count(StrJoin("\n", prefix));
    forall k | 0 <= k < |rows| ensures base + count(rows[k]) <= spec.max {
      HeaderTokensExact(prefix, [rows[k]], count);
      TokenSumSmall(rows[k], rows[k], count);
      assert count(UnderHeader(prefix, [rows[k]])) <= spec.max;
    }
    NoRowSplit(rows, false, [], base, spec, count);
  }

  function Repeat(c: char, n: nat): string {
    seq(n, k => c)
  }

  lemma {:induction false} RepeatCounts(c: char, n: nat, count: Counter)
    requires Additive(count) && count([c]) == 1
    ensures count(Repeat(c, n)) == n
  {
    if n == 0 {
      assert "" + "" == "" && Repeat(c, 0) == "";
    } else {
      RepeatCounts(c, n - 1, count);
      assert Repeat(c, n) == Repeat(c, n - 1) + [c];
    }
  }

  /** Two rows whose tokens with the header make up the limit. */
  lemma TightTable(c: char, spec: ChunkSpec, count: Counter) returns (prefix: seq<string>, rows: seq<string>)
    requires Additive(count) && count([c]) == 1 && count("\n") >= 1
    requires 0 < spec.target <= spec.max && 2 * count("\n") < spec.max
    ensures prefix != [] && |rows| == 2 && rows[0] != ""
    ensures count(StrJoin("\n", prefix)) + count(rows[0]) + count(rows[1]) == spec.max
    ensures !RowTooLong(prefix, rows, spec.max, count)
  {
    var n := count("\n");
    prefix, rows := [[c]], [Repeat(c, n), Repeat(c, spec.max - 1 - n)];
    RepeatCounts(c, n, count);
    RepeatCounts(c, spec.max - 1 - n, count);
    assert StrJoin("\n", prefix) == [c];
    forall k | 0 <= k < 2 ensures count(UnderHeader(prefix, [rows[k]])) <= spec.max {
      hide UnderHeader, Additive;
      HeaderTokensExact(prefix, [rows[k]], count);
      TokenSumSmall(rows[k], rows[k], count);
    }
  }

  /** They are shown together. */
  lemma TightRowsTogether(prefix: seq<string>, rows: seq<string>, spec: ChunkSpec, count: Counter)
    requires |rows| == 2 && rows[0] != ""
    requires spec.target <= spec.max && count(StrJoin("\n", prefix)) + count(rows[0]) + count(rows[1]) == spec.max
    ensures
      var plan := PlanRows(rows, false, [], count(StrJoin("\n", prefix)), spec, count);
      plan.Ok? && UnderHeader(prefix, rows) in Render(prefix, plan.value)
  {
    hide StrJoin, UnderHeader;
    var base := count(StrJoin("\n", prefix));
    var a, b := rows[0], rows[1];
    assert rows == [a, b] && rows[1..] == [b] && [b][1..] == [] && [] + [a] == [a] && [a] + [b] == [a, b];
    TokenSumSmall(a, a, count);
    assert TokenSum([], count) == 0;
    if spec.target < spec.max {
      var item := Packed(true, [a, b]);
      assert PlanRows([], true, [a, b], base, spec, count) == Ok([item]);
      assert PlanRows([b], false, [a], base, spec, count) == Ok([Packed(false, [a])] + [item]);
      RenderConcat(prefix, [Packed(false, [a])], [item]);
      RenderOne(prefix, item);
    } else {
      var item := Packed(false, [a, b]);
      assert PlanRows([], false, [a, b], base, spec, count) == Ok([item]);
      assert PlanRows([b], false, [a], base, spec, count) == Ok([item]);
      RenderOne(prefix, item);
    }
  }

  /** Exactly when, for a counter whose tokens add up and that counts some character as one: every chunk of the row form is
      within the limit if and only if a line feed counts nothing. */
  lemma RowFormFitsExactlyWhen(c: char, spec: ChunkSpec, count: Counter)
    requires Additive(count) && count([c]) == 1
    requires 0 < spec.target <= spec.max && 2 * count("\n") < spec.max
    ensures RowFormAlwaysFits(spec, count) <==> count("\n") == 0
  {
    hide PlanRows, Render, UnderHeader, RowTooLong, TokenSum;
    if count("\n") == 0 {
      forall prefix: seq<string>, rows: seq<string>, chunk: string | RowChunk(prefix, rows, spec, count, chunk)
        ensures count(chunk) <= spec.max
      {
        RowFormFits(prefix, rows, spec, count, chunk);
      }
    } else {
      var prefix, rows := TightTable(c, spec, count);
      TightRowsTogether(prefix, rows, spec, count);
      HeaderTokensExact(prefix, rows, count);
      assert rows == [rows[0], rows[1]];
      TokenSumSmall(rows[0], rows[1], count);
      assert RowChunk(prefix, rows, spec, count, UnderHeader(prefix, rows));
    }
  }

  lemma RowFormFits(prefix: seq<string>, rows: seq<string>, spec: ChunkSpec, count: Counter, chunk: string)
    requires Additive(count) && count("\n") == 0 && spec.target <= spec.max && RowChunk(prefix, rows, spec, count, chunk)
    ensures count(chunk) <= spec.max
  {
    hide PlanRows, Render, UnderHeader, RowTooLong, TokenSum, Additive;
    var base := count(StrJoin("\n", prefix));
    var items := PlanRows(rows, false, [], base, spec, count).value;
    var item, shown := RenderShows(prefix, items, chunk);
    RowsNotSplit(prefix, rows, spec, count);
    PlanAlone(prefix, rows, false, [], base, spec, count);
    PlanFits(rows, false, [], base, spec, count);
    var k :| 0 <= k < |items| && items[k] == item;
    assert ItemFits(item, base, spec, count) && AloneFits(prefix, item, spec.max, count);
    HeaderTokensExact(prefix, shown, count);
  }

  /** The sum by which the rows are packed, and their line feeds, are within the limit. */
  predicate WithLineFeeds(item: Item, base: nat, max: nat, count: Counter) {
    item.Packed? ==> base + TokenSum(item.rows, count) + |item.rows| * count("\n") <= max
  }

  lemma {:induction false} RenderHas(prefix: seq<string>, items: seq<Item>, item: Item)
    requires item in items && item.Packed?
    ensures UnderHeader(prefix, item.rows) in Render(prefix, items)
  {
    if item == items[0] {
      assert UnderHeader(prefix, item.rows) in RenderItem(prefix, item);
    } else {
      RenderHas(prefix, items[1..], item);
    }
  }

  lemma ItemWithin(prefix: seq<string>, rows: seq<string>, spec: ChunkSpec, count: Counter, item: Item)
    requires Additive(count) && prefix != [] && !RowTooLong(prefix, rows, spec.max, count)
    requires
      var plan := PlanRows(rows, false, [], count(StrJoin("\n", prefix)), spec, count);
      plan.Ok? && item in plan.value
    ensures item.Packed? && item.rows != []
    ensures count(UnderHeader(prefix, item.rows)) <= spec.max <==> WithLineFeeds(item, count(StrJoin("\n", prefix)), spec.max, count)
  {
    hide PlanRows, RowTooLong, UnderHeader, TokenSum, Additive;
    var base := count(StrJoin("\n", prefix));
    var items := PlanRows(rows, false, [], base, spec, count).value;
    RowsNotSplit(prefix, rows, spec, count);
    PlanAlone(prefix, rows, false, [], base, spec, count);
    var k :| 0 <= k < |items| && items[k] == item;
    assert AloneFits(prefix, item, spec.max, count);
    HeaderTokensExact(prefix, item.rows, count);
  }

  /** Exactly when, for one table and a counter whose tokens add up: its chunks are within the limit if and only if no packed
      item exceeds it with its line feeds counted. */
  lemma RowsFitExactlyWhen(prefix: seq<string>, rows: seq<string>, spec: ChunkSpec, count: Counter)
    requires Additive(count) && prefix != [] && !RowTooLong(prefix, rows, spec.max, count)
    ensures
      var base := count(StrJoin("\n", prefix));
      var plan := PlanRows(rows, false, [], base, spec, count);
      && plan.Ok?
      && (EachWithin(Render(prefix, plan.value), spec.max, count) <==> forall item :: item in plan.value ==> WithLineFeeds(item, base, spec.max, count))
  {
    hide PlanRows, Render, UnderHeader, RowTooLong, TokenSum, Additive, WithLineFeeds;
    var base := count(StrJoin("\n", prefix));
    RowsNotSplit(prefix, rows, spec, count);
    var items := PlanRows(rows, false, [], base, spec, count).value;
    var chunks := Render(prefix, items);
    if EachWithin(chunks, spec.max, count) {
      forall item | item in items ensures WithLineFeeds(item, base, spec.max, count) {
        ItemWithin(prefix, rows, spec, count, item);
        RenderHas(prefix, items, item);
        var k :| 0 <= k < |chunks| && chunks[k] == UnderHeader(prefix, item.rows);
        assert count(chunks[k]) <= spec.max;
      }
    }
    if forall item :: item in items ==> WithLineFeeds(item, base, spec.max, count) {
      forall k | 0 <= k < |chunks| ensures count(chunks[k]) <= spec.max {
        assert chunks[k] in chunks;
        var item, shown := RenderShows(prefix, items, chunks[k]);
        ItemWithin(prefix, rows, spec, count, item);
      }
    }
  }

  // ---------------------------------------------------------------- a condition on the rows

  /** Two rows shown together leave room for their line feeds, or are too long to be shown together. */
  predicate Roomy(a: string, b: string, base: nat, max: nat, count: Counter) {
    base + count(a) + count(b) + 2 * count("\n") <= max || base + count(a) + count(b) > max
  }

  /** What a caller can check of the rows: none is too long by its tokens, and no two neighbours fill the limit to within
      two line feeds. */
  ghost predicate RoomyRows(rows: seq<string>, base: nat, max: nat, count: Counter) {
    && (forall k :: 0 <= k < |rows| ==> base + count(rows[k]) <= max)
    && (forall j, k :: 0 <= j && j + 1 == k && k < |rows| ==> Roomy(rows[j], rows[k], base, max, count))
  }

  lemma RoomyRest(rows: seq<string>, base: nat, max: nat, count: Counter)
    requires RoomyRows(rows, base, max, count) && rows != []
    ensures RoomyRows(rows[1..], base, max, count)
    ensures |rows| > 1 ==> Roomy(rows[0], rows[1..][0], base, max, count)
  {
    hide Roomy;
    var rest := rows[1..];
    forall j, k | 0 <= j && j + 1 == k && k < |rest| ensures Roomy(rest[j], rest[k], base, max, count) {
      assert Roomy(rows[j + 1], rows[k + 1], base, max, count);
    }
  }

  /** One row, rows within the target, or two with room for their line feeds. */
  predicate Collects(current: seq<string>, base: nat, spec: ChunkSpec, count: Counter) {
    || |current| <= 1 || base + TokenSum(current, count) <= spec.target
    || (|current| == 2 && base + TokenSum(current, count) + 2 * count("\n") <= spec.max)
  }

  predicate ItemRoomy(item: Item, base: nat, spec: ChunkSpec, count: Counter, n: nat) {
    item.Packed? && 0 < |item.rows| <= n && Collects(item.rows, base, spec, count)
  }

  predicate AllRoomy(items: seq<Item>, base: nat, spec: ChunkSpec, count: Counter, n: nat) {
    forall k :: 0 <= k < |items| ==> ItemRoomy(items[k], base, spec, count, n)
  }

  lemma AllRoomyConcat(a: seq<Item>, b: seq<Item>, base: nat, spec: ChunkSpec, count: Counter, n: nat)
    requires AllRoomy(a, base, spec, count, n) && AllRoomy(b, base, spec, count, n)
    ensures AllRoomy(a + b, base, spec, count, n)
  {
    hide ItemRoomy;
  }

  lemma {:induction false} PlanRoomy(rows: seq<string>, carried: bool, current: seq<string>, base: nat, spec: ChunkSpec,
                                     count: Counter, n: nat)
    requires RoomyRows(rows, base, spec.max, count) && |current| + |rows| <= n && Collects(current, base, spec, count)
    requires current != [] && rows != [] ==> Roomy(current[|current| - 1], rows[0], base, spec.max, count)
    ensures PlanRows(rows, carried, current, base, spec, count).Ok?
    ensures AllRoomy(PlanRows(rows, carried, current, base, spec, count).value, base, spec, count, n)
  {
    hide TokenSum, Roomy, RoomyRows, AllRoomy;
    if rows == [] {
      assert AllRoomy(Flushed(carried, current), base, spec, count, n) by { FlushedRoomy(carried, current, base, spec, count, n); }
    } else {
      var row, rest := rows[0], rows[1..];
      RoomyRest(rows, base, spec.max, count);
      assert base + count(row) <= spec.max by { FirstAlone(rows, base, spec.max, count); }
      if current != [] && base + TokenSum(current, count) + count(row) > spec.target {
        var overlap := current[|current| - 1];
        var keep := Carries(overlap, row, base, spec, count);
        var next := if keep then [overlap, row] else [row];
        TokenSumSmall(overlap, row, count);
        assert Collects(next, base, spec, count) by { PairCollects(overlap, row, keep, base, spec, count); }
        PlanRoomy(rest, keep, next, base, spec, count, n);
        FlushedRoomy(carried, current, base, spec, count, n);
        AllRoomyConcat([Packed(carried, current)], PlanRows(rest, keep, next, base, spec, count).value, base, spec, count, n);
      } else {
        TokenSumAppend(current, row, count);
        PlanRoomy(rest, carried, current + [row], base, spec, count, n);
      }
    }
  }

  lemma FirstAlone(rows: seq<string>, base: nat, max: nat, count: Counter)
    requires RoomyRows(rows, base, max, count) && rows != []
    ensures base + count(rows[0]) <= max
  {
  }

  lemma PairCollects(a: string, b: string, keep: bool, base: nat, spec: ChunkSpec, count: Counter)
    requires Roomy(a, b, base, spec.max, count) && keep == Carries(a, b, base, spec, count)
    ensures Collects(if keep then [a, b] else [b], base, spec, count)
  {
    TokenSumSmall(a, b, count);
  }

  lemma FlushedRoomy(carried: bool, current: seq<string>, base: nat, spec: ChunkSpec, count: Counter, n: nat)
    requires Collects(current, base, spec, count) && |current| <= n
    ensures AllRoomy(Flushed(carried, current), base, spec, count, n)
  {
  }

  /** For a subadditive counter: with room in the target for one line feed a row, and rows that leave room for theirs, every
      chunk of the row form is within the limit. */
  lemma RoomyRowsFit(prefix: seq<string>, rows: seq<string>, spec: ChunkSpec, count: Counter, chunk: string)
    requires Subadditive(count) && RowChunk(prefix, rows, spec, count, chunk)
    requires spec.target + |rows| * count("\n") <= spec.max
    requires RoomyRows(rows, count(StrJoin("\n", prefix)), spec.max, count)
    ensures count(chunk) <= spec.max
  {
    hide Subadditive, RowTooLong, PlanRows, Pieces, TokenSum, Render, UnderHeader, RoomyRows;
    var base := count(StrJoin("\n", prefix));
    var items := PlanRows(rows, false, [], base, spec, count).value;
    var item, shown := RenderShows(prefix, items, chunk);
    PlanAlone(prefix, rows, false, [], base, spec, count);
    PlanRoomy(rows, false, [], base, spec, count, |rows|);
    var k :| 0 <= k < |items| && items[k] == item;
    assert ItemRoomy(item, base, spec, count, |rows|) && AloneFits(prefix, item, spec.max, count);
    HeaderTokens(prefix, shown, count);
    FewerLineFeeds(|shown|, |rows|, count("\n"));
  }

  lemma FewerLineFeeds(m: nat, n: nat, each: nat)
    requires m <= n
    ensures m * each <= n * each
  {
  }

  // ---------------------------------------------------------------- the whole splitter

  /** The text has a line above a rule, does not fit as a whole, and has no row that is too long: it is split by rows. */
  ghost predicate SplitByRows(md: string, spec: ChunkSpec, count: Counter, t: TableTools) {
    var lines := NonBlank(SplitLines(md));
    var rule := FirstRule(lines, t.isRule);
    && 0 < rule < |lines| && count(md) > spec.max
    && !RowTooLong(lines[..rule + 1], lines[rule + 1..], spec.max, count)
  }

  predicate HasRule(md: string, t: TableTools) {
    var lines := NonBlank(SplitLines(md));
    0 < FirstRule(lines, t.isRule) < |lines|
  }

  /** For any counter: a table that is not split by rows gives chunks within the limit; a chunk of one that is has the
      header and some of the rows, or pieces of one, below it. */
  lemma TableTextsWithin(md: string, spec: ChunkSpec, count: Counter, t: TableTools)
    requires HasRule(md, t) && TableTexts(md, spec, count, t).Ok?
    ensures !SplitByRows(md, spec, count, t) ==> EachWithin(TableTexts(md, spec, count, t).value, spec.max, count)
    ensures SplitByRows(md, spec, count, t) ==>
              var lines := NonBlank(SplitLines(md));
              var rule := FirstRule(lines, t.isRule);
              forall chunk :: chunk in TableTexts(md, spec, count, t).value ==>
                RowChunk(lines[..rule + 1], lines[rule + 1..], spec, count, chunk)
  {
    hide NonBlank, SplitLines, WideTable, PlanRows, Render, RowTooLong, UnderHeader, FirstRule;
    var lines := NonBlank(SplitLines(md));
    var rule := FirstRule(lines, t.isRule);
    if count(md) > spec.max && !SplitByRows(md, spec, count, t) {
      WideTableWithin(lines[rule - 1], lines[rule + 1..], spec, count, StrJoin("\n", lines[..rule - 1]), t.reference);
    }
  }

  /** Counting adds up and line feeds count nothing: then no chunk of any table exceeds the limit. */
  lemma FreeLineFeedsFit(md: string, spec: ChunkSpec, count: Counter, t: TableTools)
    requires Additive(count) && count("\n") == 0 && spec.target <= spec.max
    requires HasRule(md, t) && TableTexts(md, spec, count, t).Ok?
    ensures EachWithin(TableTexts(md, spec, count, t).value, spec.max, count)
  {
    hide NonBlank, SplitLines, TableTexts, RowChunk, Additive, FirstRule;
    TableTextsWithin(md, spec, count, t);
    if SplitByRows(md, spec, count, t) {
      var lines := NonBlank(SplitLines(md));
      var rule := FirstRule(lines, t.isRule);
      var chunks := TableTexts(md, spec, count, t).value;
      forall k | 0 <= k < |chunks| ensures count(chunks[k]) <= spec.max {
        assert chunks[k] in chunks;
        RowFormFits(lines[..rule + 1], lines[rule + 1..], spec, count, chunks[k]);
      }
    }
  }
}

/** Splitting a markdown table: by rows under a repeated header, or cell by cell when a row alone is too long. */
module TableChunks {
  import opened ChunkText
  import opened Decimals
  import opened HardSplit
  import opened Prelude
  import opened PythonText
  import opened TableText

  type Texts = Result<seq<string>, ChunkError>

  // ---------------------------------------------------------------- rows under a repeated header

  /** One step of the plan: rows packed together, the first of them possibly carried over from the chunk before, or one
      row in pieces. */
  datatype Item = Packed(carried: bool, rows: seq<string>) | SplitRow(pieces: seq<string>)

  type Plan = Result<seq<Item>, ChunkError>

  function TokenSum(rows: seq<string>, count: Counter): nat {
    if rows == [] then 0 else count(rows[0]) + TokenSum(rows[1..], count)
  }

  function Flushed(carried: bool, current: seq<string>): seq<Item> {
    if current == [] then [] else [Packed(carried, current)]
  }

  function PieceBudget(spec: ChunkSpec, base: nat): nat {
    if spec.target - base < 1 then 1 else spec.target - base
  }

  /** Whether the last row of the chunk before is repeated. */
  predicate Carries(overlap: string, row: string, base: nat, spec: ChunkSpec, count: Counter) {
    overlap != "" && base + count(overlap) + count(row) <= spec.max
  }

  /** The plan for the remaining rows while current is being collected. */
  function PlanRows(rows: seq<string>, carried: bool, current: seq<string>, base: nat, spec: ChunkSpec, count: Counter): Plan {
    if rows == [] then Ok(Flushed(carried, current))
    else
      var row := rows[0];
      if base + count(row) > spec.max then
        var pieces :- Pieces(row, PieceBudget(spec, base), count);
        Onto(Flushed(carried, current) + [SplitRow(pieces)], PlanRows(rows[1..], false, [], base, spec, count))
      else if current != [] && base + TokenSum(current, count) + count(row) > spec.target then
        var overlap := current[|current| - 1];
        var keep := Carries(overlap, row, base, spec, count);
        Onto([Packed(carried, current)],
               PlanRows(rows[1..], keep, if keep then [overlap, row] else [row], base, spec, count))
      else PlanRows(rows[1..], carried, current + [row], base, spec, count)
  }

  /** The chunk of some rows: the whole prefix, then the rows. */
  function UnderHeader(prefix: seq<string>, rows: seq<string>): string {
    StrJoin("\n", prefix + rows)
  }

  function RenderItem(prefix: seq<string>, item: Item): (chunks: seq<string>) {
    match item
    case Packed(_, rows) => [UnderHeader(prefix, rows)]
    case SplitRow(pieces) => seq(|pieces|, k requires 0 <= k < |pieces| => UnderHeader(prefix, [pieces[k]]))
  }

  function Render(prefix: seq<string>, items: seq<Item>): seq<string> {
    if items == [] then [] else RenderItem(prefix, items[0]) + Render(prefix, items[1..])
  }

  lemma {:induction false} RenderConcat(prefix: seq<string>, a: seq<Item>, b: seq<Item>)
    ensures Render(prefix, a + b) == Render(prefix, a) + Render(prefix, b)
  {
    if a == [] {
      assert a + b == b;
    } else {
      assert (a + b)[1..] == a[1..] + b;
      RenderConcat(prefix, a[1..], b);
    }
  }

  // ---------------------------------------------------------------- what the plan keeps

  /** The rows an item adds: without the carried one, and with pieces put together again. */
  function Added(item: Item): seq<string> {
    match item
    case Packed(carried, rows) => if carried && rows != [] then rows[1..] else rows
    case SplitRow(pieces) => [Joined(pieces)]
  }

  function AllAdded(items: seq<Item>): seq<string> {
    if items == [] then [] else Added(items[0]) + AllAdded(items[1..])
  }

  lemma AllAddedFirst(item: Item, rest: seq<Item>)
    ensures AllAdded([item] + rest) == Added(item) + AllAdded(rest)
  {
    assert ([item] + rest)[1..] == rest;
  }

  /** A carried row is the last row of the packed chunk just before, and never stands alone. */
  predicate CarriedAfter(previous: Option<Item>, item: Item) {
    item.Packed? ==>
      && item.rows != []
      && (item.carried ==> |item.rows| > 1 && previous.Some? && previous.value.Packed? && previous.value.rows != []
                           && item.rows[0] == previous.value.rows[|previous.value.rows| - 1])
  }

  predicate CarriedWell(previous: Option<Item>, items: seq<Item>)
    decreases |items|
  {
    items == [] || (CarriedAfter(previous, items[0]) && CarriedWell(Some(items[0]), items[1..]))
  }

  lemma CarriedFirst(previous: Option<Item>, item: Item, rest: seq<Item>)
    requires CarriedAfter(previous, item) && CarriedWell(Some(item), rest)
    ensures CarriedWell(previous, [item] + rest)
  {
    assert ([item] + rest)[1..] == rest;
  }

  /** The collected rows may start with a row carried from the previous item, and then hold another one. */
  predicate Collecting(previous: Option<Item>, carried: bool, current: seq<string>) {
    if current == [] then !carried else CarriedAfter(previous, Packed(carried, current))
  }

  function Own(carried: bool, current: seq<string>): seq<string> {
    if current == [] then [] else Added(Packed(carried, current))
  }

  lemma FlushThenSplit(previous: Option<Item>, carried: bool, current: seq<string>, pieces: seq<string>, more: seq<Item>)
    requires Collecting(previous, carried, current) && CarriedWell(Some(SplitRow(pieces)), more)
    ensures AllAdded(Flushed(carried, current) + [SplitRow(pieces)] + more)
         == Own(carried, current) + ([Joined(pieces)] + AllAdded(more))
    ensures CarriedWell(previous, Flushed(carried, current) + [SplitRow(pieces)] + more)
  {
    var piece := SplitRow(pieces);
    AllAddedFirst(piece, more);
    CarriedFirst(if current == [] then previous else Some(Packed(carried, current)), piece, more);
    if current == [] {
      assert [] + [piece] + more == [piece] + more;
    } else {
      AllAddedFirst(Packed(carried, current), [piece] + more);
      CarriedFirst(previous, Packed(carried, current), [piece] + more);
      assert [Packed(carried, current)] + [piece] + more == [Packed(carried, current)] + ([piece] + more);
    }
  }

  /** The items put out the given rows, in order, and carry only from the chunk before. */
  predicate Conserves(items: seq<Item>, previous: Option<Item>, rows: seq<string>) {
    AllAdded(items) == rows && CarriedWell(previous, items)
  }

  lemma OwnGrows(previous: Option<Item>, carried: bool, current: seq<string>, row: string, rest: seq<string>)
    requires Collecting(previous, carried, current)
    ensures Collecting(previous, carried, current + [row])
    ensures Own(carried, current + [row]) + rest == Own(carried, current) + ([row] + rest)
  {
    assert Own(carried, current + [row]) == Own(carried, current) + [row];
  }

  lemma PackedConserves(previous: Option<Item>, carried: bool, current: seq<string>, keep: bool, row: string,
                        more: seq<Item>, rest: seq<string>)
    requires current != [] && Collecting(previous, carried, current)
    requires
      var next := if keep then [current[|current| - 1], row] else [row];
      Conserves(more, Some(Packed(carried, current)), Own(keep, next) + rest)
    ensures Conserves([Packed(carried, current)] + more, previous, Own(carried, current) + ([row] + rest))
  {
    var collected := Packed(carried, current);
    AllAddedFirst(collected, more);
    CarriedFirst(previous, collected, more);
  }

  lemma SplitConserves(previous: Option<Item>, carried: bool, current: seq<string>, pieces: seq<string>, row: string,
                       more: seq<Item>, rest: seq<string>)
    requires Collecting(previous, carried, current) && Joined(pieces) == row
    requires Conserves(more, Some(SplitRow(pieces)), Own(false, []) + rest)
    ensures Conserves(Flushed(carried, current) + [SplitRow(pieces)] + more, previous, Own(carried, current) + ([row] + rest))
  {
    FlushThenSplit(previous, carried, current, pieces, more);
    assert Own(false, []) + rest == rest;
  }

  lemma LastConserves(previous: Option<Item>, carried: bool, current: seq<string>)
    requires Collecting(previous, carried, current)
    ensures Conserves(Flushed(carried, current), previous, Own(carried, current) + [])
  {
    if current != [] {
      AllAddedFirst(Packed(carried, current), []);
      CarriedFirst(previous, Packed(carried, current), []);
      assert [Packed(carried, current)] + [] == [Packed(carried, current)];
    }
  }

  lemma NextCollecting(previous: Option<Item>, carried: bool, current: seq<string>, keep: bool, row: string)
    requires current != [] && Collecting(previous, carried, current)
    ensures Collecting(Some(Packed(carried, current)), keep, if keep then [current[|current| - 1], row] else [row])
  {
  }

  /** Splitting by rows conserves the rows: without the carried ones and with the pieces of a row joined, the chunks
      give back the original rows in order; and what is carried is the last row of the chunk before. */
  lemma {:induction false} PlanConserves(rows: seq<string>, previous: Option<Item>, carried: bool, current: seq<string>,
                                         base: nat, spec: ChunkSpec, count: Counter)
    requires PlanRows(rows, carried, current, base, spec, count).Ok? && Collecting(previous, carried, current)
    ensures Conserves(PlanRows(rows, carried, current, base, spec, count).value, previous, Own(carried, current) + rows)
  {
    hide Conserves, Collecting, Own, Carries, TokenSum, Pieces;
    if rows == [] {
      LastConserves(previous, carried, current);
    } else {
      var row, rest := rows[0], rows[1..];
      assert rows == [row] + rest;
      if base + count(row) > spec.max {
        var pieces := Pieces(row, PieceBudget(spec, base), count).value;
        PiecesPartition(row, PieceBudget(spec, base), count);
        assert Collecting(Some(SplitRow(pieces)), false, []) by { NothingCollected(SplitRow(pieces)); }
        PlanConserves(rest, Some(SplitRow(pieces)), false, [], base, spec, count);
        SplitConserves(previous, carried, current, pieces, row, PlanRows(rest, false, [], base, spec, count).value, rest);
      } else if current != [] && base + TokenSum(current, count) + count(row) > spec.target {
        var keep := Carries(current[|current| - 1], row, base, spec, count);
        var next := if keep then [current[|current| - 1], row] else [row];
        NextCollecting(previous, carried, current, keep, row);
        PlanConserves(rest, Some(Packed(carried, current)), keep, next, base, spec, count);
        PackedConserves(previous, carried, current, keep, row, PlanRows(rest, keep, next, base, spec, count).value, rest);
      } else {
        OwnGrows(previous, carried, current, row, rest);
        PlanConserves(rest, previous, carried, current + [row], base, spec, count);
      }
    }
  }

  lemma NothingCollected(item: Item)
    ensures Collecting(Some(item), false, [])
  {
  }

  /** The whole table: nothing lost, nothing repeated but the carried rows. */
  lemma RowsConserved(rows: seq<string>, base: nat, spec: ChunkSpec, count: Counter)
    requires PlanRows(rows, false, [], base, spec, count).Ok?
    ensures Conserves(PlanRows(rows, false, [], base, spec, count).value, None, rows)
  {
    PlanConserves(rows, None, false, [], base, spec, count);
    assert Own(false, []) + rows == rows;
  }

  /** The tokens of the header and of the rows, counted one by one, are within the limit; pieces are within what the
      header leaves of the target. */
  predicate ItemFits(item: Item, base: nat, spec: ChunkSpec, count: Counter) {
    match item
    case Packed(_, rows) => base + TokenSum(rows, count) <= spec.max
    case SplitRow(pieces) => Fit(pieces, PieceBudget(spec, base), count)
  }

  predicate AllItemsFit(items: seq<Item>, base: nat, spec: ChunkSpec, count: Counter) {
    forall k :: 0 <= k < |items| ==> ItemFits(items[k], base, spec, count)
  }

  lemma AllItemsFitConcat(a: seq<Item>, b: seq<Item>, base: nat, spec: ChunkSpec, count: Counter)
    requires AllItemsFit(a, base, spec, count) && AllItemsFit(b, base, spec, count)
    ensures AllItemsFit(a + b, base, spec, count)
  {
  }

  lemma FlushedFits(carried: bool, current: seq<string>, base: nat, spec: ChunkSpec, count: Counter)
    requires current == [] || base + TokenSum(current, count) <= spec.max
    ensures AllItemsFit(Flushed(carried, current), base, spec, count)
  {
  }

  /** The token sums by which rows are packed never exceed the limit, carried rows included. */
  lemma {:induction false} PlanFits(rows: seq<string>, carried: bool, current: seq<string>, base: nat, spec: ChunkSpec, count: Counter)
    requires spec.target <= spec.max && PlanRows(rows, carried, current, base, spec, count).Ok?
    requires current == [] || base + TokenSum(current, count) <= spec.max
    ensures AllItemsFit(PlanRows(rows, carried, current, base, spec, count).value, base, spec, count)
  {
    hide AllItemsFit, TokenSum, Pieces;
    FlushedFits(carried, current, base, spec, count);
    if rows != [] {
      var row, rest := rows[0], rows[1..];
      if base + count(row) > spec.max {
        var pieces := Pieces(row, PieceBudget(spec, base), count).value;
        PiecesPartition(row, PieceBudget(spec, base), count);
        PlanFits(rest, false, [], base, spec, count);
        OneItemFits(SplitRow(pieces), base, spec, count);
        AllItemsFitConcat(Flushed(carried, current), [SplitRow(pieces)], base, spec, count);
        AllItemsFitConcat(Flushed(carried, current) + [SplitRow(pieces)], PlanRows(rest, false, [], base, spec, count).value, base, spec, count);
      } else if current != [] && base + TokenSum(current, count) + count(row) > spec.target {
        var overlap := current[|current| - 1];
        var keep := Carries(overlap, row, base, spec, count);
        var next := if keep then [overlap, row] else [row];
        TokenSumSmall(overlap, row, count);
        PlanFits(rest, keep, next, base, spec, count);
        AllItemsFitConcat([Packed(carried, current)], PlanRows(rest, keep, next, base, spec, count).value, base, spec, count);
      } else {
        TokenSumAppend(current, row, count);
        if current == [] {
          TokenSumSmall(row, row, count);
          assert [] + [row] == [row];
        }
        PlanFits(rest, carried, current + [row], base, spec, count);
      }
    }
  }

  lemma OneItemFits(item: Item, base: nat, spec: ChunkSpec, count: Counter)
    requires ItemFits(item, base, spec, count)
    ensures AllItemsFit([item], base, spec, count)
  {
  }

  lemma {:induction false} JoinPrefix(separator: string, front: seq<string>, back: seq<string>)
    requires front != [] && back != []
    ensures StrJoin(separator, front + back) == StrJoin(separator, front) + separator + StrJoin(separator, back)
  {
    if |front| == 1 {
      assert (front + back)[1..] == back;
    } else {
      assert (front + back)[1..] == front[1..] + back;
      JoinPrefix(separator, front[1..], back);
    }
  }

  /** The rows or the piece that a chunk shows under the header. */
  predicate ShowsUnderHeader(prefix: seq<string>, chunk: string) {
    StrJoin("\n", prefix) + "\n" <= chunk
  }

  lemma {:induction false} RenderShowsHeader(prefix: seq<string>, previous: Option<Item>, items: seq<Item>, chunk: string)
    requires prefix != [] && CarriedWell(previous, items) && chunk in Render(prefix, items)
    ensures ShowsUnderHeader(prefix, chunk)
    decreases |items|
  {
    var first := RenderItem(prefix, items[0]);
    if chunk in first {
      var k :| 0 <= k < |first| && first[k] == chunk;
      match items[0]
      case Packed(_, rows) => JoinPrefix("\n", prefix, rows);
      case SplitRow(pieces) => JoinPrefix("\n", prefix, [pieces[k]]);
    } else {
      RenderShowsHeader(prefix, Some(items[0]), items[1..], chunk);
    }
  }

  /** Every chunk of a table split by rows starts with the full header prefix. */
  lemma EveryChunkHasHeader(prefix: seq<string>, rows: seq<string>, base: nat, spec: ChunkSpec, count: Counter)
    requires prefix != [] && PlanRows(rows, false, [], base, spec, count).Ok?
    ensures forall chunk :: chunk in Render(prefix, PlanRows(rows, false, [], base, spec, count).value) ==> ShowsUnderHeader(prefix, chunk)
  {
    var items := PlanRows(rows, false, [], base, spec, count).value;
    RowsConserved(rows, base, spec, count);
    forall chunk | chunk in Render(prefix, items) ensures ShowsUnderHeader(prefix, chunk) {
      RenderShowsHeader(prefix, None, items, chunk);
    }
  }

  // ---------------------------------------------------------------- the loop over the rows

  function RenderPlan(prefix: seq<string>, plan: Plan): Texts {
    match plan
    case Ok(items) => Ok(Render(prefix, items))
    case Err(e) => Err(e)
  }

  lemma RenderOnto(prefix: seq<string>, chunks: seq<string>, items: seq<Item>, rest: Plan)
    ensures Onto(chunks, RenderPlan(prefix, Onto(items, rest))) == Onto(chunks + Render(prefix, items), RenderPlan(prefix, rest))
  {
    if rest.Ok? {
      RenderConcat(prefix, items, rest.value);
      assert chunks + (Render(prefix, items) + Render(prefix, rest.value)) == chunks + Render(prefix, items) + Render(prefix, rest.value);
    }
  }

  lemma {:induction false} TokenSumAppend(rows: seq<string>, row: string, count: Counter)
    ensures TokenSum(rows + [row], count) == TokenSum(rows, count) + count(row)
  {
    if rows == [] {
      assert rows + [row] == [row];
    } else {
      assert (rows + [row])[1..] == rows[1..] + [row];
      TokenSumAppend(rows[1..], row, count);
    }
  }

  lemma TokenSumSmall(a: string, b: string, count: Counter)
    ensures TokenSum([b], count) == count(b) && TokenSum([a, b], count) == count(a) + count(b)
  {
    assert [a, b][1..] == [b] && [b][1..] == [];
  }

  method AppendPieces(prefix: seq<string>, chunks: seq<string>, pieces: seq<string>) returns (more: seq<string>)
    ensures more == chunks + RenderItem(prefix, SplitRow(pieces))
  {
    more := chunks;
    ghost var all := RenderItem(prefix, SplitRow(pieces));
    for k := 0 to |pieces|
      invariant more == chunks + all[..k]
    {
      assert all[..k + 1] == all[..k] + [all[k]];
      more := more + [UnderHeader(prefix, [pieces[k]])];
    }
    assert all[..|pieces|] == all;
  }

  /** The rendered plan after one row: what the row puts out, and the state it leaves. */
  lemma RowStep(prefix: seq<string>, chunks: seq<string>, rows: seq<string>, carried: bool, current: seq<string>, base: nat,
                spec: ChunkSpec, count: Counter)
    requires rows != []
    ensures
      var row := rows[0];
      var whole := Onto(chunks, RenderPlan(prefix, PlanRows(rows, carried, current, base, spec, count)));
      var flushed := chunks + Render(prefix, Flushed(carried, current));
      if base + count(row) > spec.max then
        var pieces := Pieces(row, PieceBudget(spec, base), count);
        whole == if pieces.Err? then Err(pieces.error)
                 else Onto(flushed + RenderItem(prefix, SplitRow(pieces.value)),
                           RenderPlan(prefix, PlanRows(rows[1..], false, [], base, spec, count)))
      else if current != [] && base + TokenSum(current, count) + count(row) > spec.target then
        var keep := Carries(current[|current| - 1], row, base, spec, count);
        whole == Onto(flushed, RenderPlan(prefix, PlanRows(rows[1..], keep,
                                                           if keep then [current[|current| - 1], row] else [row], base, spec, count)))
      else whole == Onto(chunks, RenderPlan(prefix, PlanRows(rows[1..], carried, current + [row], base, spec, count)))
  {
    hide Render, Carries, TokenSum;
    var row := rows[0];
    if base + count(row) > spec.max {
      var pieces := Pieces(row, PieceBudget(spec, base), count);
      if pieces.Ok? {
        RenderOnto(prefix, chunks, Flushed(carried, current) + [SplitRow(pieces.value)],
                     PlanRows(rows[1..], false, [], base, spec, count));
        RenderConcat(prefix, Flushed(carried, current), [SplitRow(pieces.value)]);
        RenderOne(prefix, SplitRow(pieces.value));
        assert chunks + (Render(prefix, Flushed(carried, current)) + RenderItem(prefix, SplitRow(pieces.value)))
            == chunks + Render(prefix, Flushed(carried, current)) + RenderItem(prefix, SplitRow(pieces.value));
      }
    } else if current != [] && base + TokenSum(current, count) + count(row) > spec.target {
      var keep := Carries(current[|current| - 1], row, base, spec, count);
      RenderOnto(prefix, chunks, [Packed(carried, current)],
                   PlanRows(rows[1..], keep, if keep then [current[|current| - 1], row] else [row], base, spec, count));
    }
  }

  lemma RenderOne(prefix: seq<string>, item: Item)
    ensures Render(prefix, [item]) == RenderItem(prefix, item) && Render(prefix, []) == []
  {
    assert RenderItem(prefix, item) + [] == RenderItem(prefix, item);
  }

  lemma RenderFlushed(prefix: seq<string>, chunks: seq<string>, carried: bool, current: seq<string>)
    ensures chunks + Render(prefix, Flushed(carried, current))
         == if current == [] then chunks else chunks + [UnderHeader(prefix, current)]
  {
    if current == [] {
      assert chunks + [] == chunks;
    } else {
      RenderOne(prefix, Packed(carried, current));
    }
  }

  /** The body of the loop over the rows. */
  method AddRow(prefix: seq<string>, row: string, chunks: seq<string>, current: seq<string>, tokens: nat, base: nat,
                spec: ChunkSpec, count: Counter, ghost carried: bool, ghost rest: seq<string>)
    returns (result: Result<(seq<string>, seq<string>, nat), ChunkError>, ghost carried': bool)
    requires tokens == base + TokenSum(current, count)
    ensures
      var whole := Onto(chunks, RenderPlan(prefix, PlanRows([row] + rest, carried, current, base, spec, count)));
      match result
      case Err(e) => whole == Err(e)
      case Ok(state) =>
        && state.2 == base + TokenSum(state.1, count)
        && whole == Onto(state.0, RenderPlan(prefix, PlanRows(rest, carried', state.1, base, spec, count)))
  {
    hide RenderPlan, PlanRows, Onto, Render, Flushed, RenderItem;
    carried' := carried;
    RowStep(prefix, chunks, [row] + rest, carried, current, base, spec, count);
    assert ([row] + rest)[1..] == rest;
    RenderFlushed(prefix, chunks, carried, current);
    var rowTokens := count(row);
    if base + rowTokens > spec.max {
      var flushed := chunks;
      if current != [] {
        flushed := flushed + [UnderHeader(prefix, current)];
      }
      var pieces := Split(row, PieceBudget(spec, base), count);
      if pieces.Err? {
        return Err(pieces.error), false;
      }
      flushed := AppendPieces(prefix, flushed, pieces.value);
      return Ok((flushed, [], base)), false;
    }
    if current != [] && tokens + rowTokens > spec.target {
      var overlap := current[|current| - 1];
      TokenSumSmall(overlap, row, count);
      if overlap != "" && base + count(overlap) + rowTokens <= spec.max {
        return Ok((chunks + [UnderHeader(prefix, current)], [overlap, row], base + count(overlap) + rowTokens)), true;
      }
      return Ok((chunks + [UnderHeader(prefix, current)], [row], base + rowTokens)), false;
    }
    TokenSumAppend(current, row, count);
    return Ok((chunks, current + [row], tokens + rowTokens)), carried;
  }

  /** The loop over the rows. */
  method ChunkRows(prefix: seq<string>, rows: seq<string>, spec: ChunkSpec, count: Counter) returns (result: Texts)
    ensures result == RenderPlan(prefix, PlanRows(rows, false, [], count(StrJoin("\n", prefix)), spec, count))
  {
    var base := count(StrJoin("\n", prefix));
    var chunks: seq<string>, current: seq<string>, tokens := [], [], base;
    ghost var carried := false;
    ghost var whole := RenderPlan(prefix, PlanRows(rows, false, [], base, spec, count));
    OntoEnds([], whole);
    assert rows[0..] == rows;
    for k := 0 to |rows|
      invariant tokens == base + TokenSum(current, count)
      invariant whole == Onto(chunks, RenderPlan(prefix, PlanRows(rows[k..], carried, current, base, spec, count)))
    {
      hide *;
      assert rows[k..] == [rows[k]] + rows[k + 1..];
      var state;
      state, carried := AddRow(prefix, rows[k], chunks, current, tokens, base, spec, count, carried, rows[k + 1..]);
      if state.Err? {
        return Err(state.error);
      }
      chunks, current, tokens := state.value.0, state.value.1, state.value.2;
    }
    RenderFlushed(prefix, chunks, carried, current);
    if current != [] {
      chunks := chunks + [UnderHeader(prefix, current)];
    }
    return Ok(chunks);
  }

  // ---------------------------------------------------------------- cell by cell

  /** A value and the label that every record of it starts with. */
  datatype Labelled = Labelled(tag: string, value: string)

  function Shown(value: string): string {
    if value == "" then "(empty)" else value
  }

  /** f"Row {row}; column {column} ({name}); key {key}: ", below the caption */
  function CellLabel(caption: string, row: nat, column: nat, name: string, key: string): string {
    (if caption != "" then caption + "\n" else "")
    + "Row " + Decimal(row) + "; column " + Decimal(column) + " (" + name + "); key " + key + ": "
  }

  /** The cells of one row from a column on. */
  function RowCells(caption: string, headers: seq<string>, cells: seq<string>, row: nat, column: nat): (list: seq<Labelled>)
    requires |cells| == |headers| && column <= |headers|
    ensures |list| == |headers| - column
    ensures forall k :: 0 <= k < |list| ==> list[k].value == cells[column + k]
    decreases |headers| - column
  {
    if column == |headers| then []
    else [Labelled(CellLabel(caption, row, column + 1, headers[column], cells[0]), cells[column])]
         + RowCells(caption, headers, cells, row, column + 1)
  }

  predicate Rectangular(headers: seq<string>, parsed: seq<seq<string>>) {
    forall k :: 0 <= k < |parsed| ==> |parsed[k]| == |headers|
  }

  /** All cells, row by row. */
  function WideCells(caption: string, headers: seq<string>, parsed: seq<seq<string>>, row: nat): seq<Labelled>
    requires Rectangular(headers, parsed)
    decreases |parsed|
  {
    if parsed == [] then []
    else RowCells(caption, headers, parsed[0], row, 0) + WideCells(caption, headers, parsed[1..], row + 1)
  }

  /** The records of one cell in the wide form. */
  function WidePieces(cell: Labelled, spec: ChunkSpec, count: Counter): Texts {
    var budget := spec.max - count(cell.tag) - 2;
    if count(cell.tag) >= spec.max - 3 || budget < 3 then Err(IdentityTooLarge)
    else
      var pieces :- Pieces(Shown(cell.value), budget, count);
      if AllFit(cell.tag, pieces, spec.max, count) then Ok(pieces) else Err(BudgetViolated)
  }

  predicate AllFit(tag: string, pieces: seq<string>, max: nat, count: Counter) {
    forall k :: 0 <= k < |pieces| ==> count(tag + pieces[k]) <= max
  }

  /** The search of the compact form for a budget at which all records of a value fit. */
  function CompactPieces(cell: Labelled, budget: nat, max: nat, count: Counter): Texts
    requires budget >= 1
    decreases budget
  {
    var pieces :- Pieces(Shown(cell.value), budget, count);
    if AllFit(cell.tag, pieces, max, count) then Ok(pieces)
    else if budget - 1 < 1 then Err(IdentityTooLarge)
    else CompactPieces(cell, budget - 1, max, count)
  }

  function CompactCell(cell: Labelled, spec: ChunkSpec, count: Counter): Texts {
    var budget := spec.max - count(cell.tag) - 2;
    if budget < 1 then Err(IdentityTooLarge) else CompactPieces(cell, budget, spec.max, count)
  }

  function CellPieces(cell: Labelled, wide: bool, spec: ChunkSpec, count: Counter): Texts {
    if wide then WidePieces(cell, spec, count) else CompactCell(cell, spec, count)
  }

  function Labelling(tag: string, pieces: seq<string>): (records: seq<string>)
    ensures |records| == |pieces| && forall k :: 0 <= k < |pieces| ==> records[k] == tag + pieces[k]
  {
    seq(|pieces|, k requires 0 <= k < |pieces| => tag + pieces[k])
  }

  /** The records of all cells, in order. */
  function Records(cells: seq<Labelled>, wide: bool, spec: ChunkSpec, count: Counter): Texts {
    if cells == [] then Ok([])
    else
      var pieces :- CellPieces(cells[0], wide, spec, count);
      var rest :- Records(cells[1..], wide, spec, count);
      Ok(Labelling(cells[0].tag, pieces) + rest)
  }

  function ColumnHeaders(headers: seq<string>, column: nat): (list: seq<Labelled>)
    requires column <= |headers|
    decreases |headers| - column
  {
    if column == |headers| then []
    else [Labelled("column " + Decimal(column + 1) + " header", headers[column])] + ColumnHeaders(headers, column + 1)
  }

  function CompactRow(cells: seq<string>, row: nat, column: nat): (list: seq<Labelled>)
    requires column <= |cells|
    decreases |cells| - column
  {
    if column == |cells| then []
    else [Labelled("Row " + Decimal(row) + "; column " + Decimal(column + 1), cells[column])] + CompactRow(cells, row, column + 1)
  }

  function CompactRows(parsed: seq<seq<string>>, row: nat): seq<Labelled> {
    if parsed == [] then [] else CompactRow(parsed[0], row, 0) + CompactRows(parsed[1..], row + 1)
  }

  function UnderReference(reference: string, fields: seq<Labelled>): (list: seq<Labelled>)
    ensures |list| == |fields| && forall k :: 0 <= k < |list| ==> list[k].value == fields[k].value
  {
    seq(|fields|, k requires 0 <= k < |fields| => Labelled("Table " + reference + "; " + fields[k].tag + ": ", fields[k].value))
  }

  /** The caption, the column headers and all cells, each labelled with a reference to the table. */
  function CompactFields(reference: string, caption: string, headers: seq<string>, parsed: seq<seq<string>>): seq<Labelled> {
    UnderReference(reference, (if caption != "" then [Labelled("caption", caption)] else [])
                              + ColumnHeaders(headers, 0) + CompactRows(parsed, 1))
  }

  predicate LabelTooLong(cells: seq<Labelled>, spec: ChunkSpec, count: Counter) {
    exists k :: 0 <= k < |cells| && count(cells[k].tag) >= spec.max - 3
  }

  function Parsed(rows: seq<string>): (parsed: seq<seq<string>>)
    ensures |parsed| == |rows|
  {
    seq(|rows|, k requires 0 <= k < |rows| => Cells(rows[k]))
  }

  /** A table with a row that is too long: the wide form, or the compact one when a label is too long for it. */
  function WideTable(header: string, rows: seq<string>, spec: ChunkSpec, count: Counter, caption: string,
                     reference: (string, string, seq<seq<string>>) -> string): Texts
  {
    var headers, parsed := Cells(header), Parsed(rows);
    if !Rectangular(headers, parsed) then Err(CellCountMismatch)
    else
      var wide := WideCells(caption, headers, parsed, 1);
      if LabelTooLong(wide, spec, count) then
        Records(CompactFields(reference(caption, header, parsed), caption, headers, parsed), false, spec, count)
      else Records(wide, true, spec, count)
  }

  // ---------------------------------------------------------------- what the records keep

  /** The records of the cells: for each cell, in order, its label before pieces that make up its value, all within the
      limit. */
  ghost predicate Lossless(records: seq<string>, cells: seq<Labelled>, max: nat, count: Counter)
    decreases |cells|
  {
    if cells == [] then records == []
    else
      exists pieces: seq<string> ::
        && Joined(pieces) == Shown(cells[0].value) && pieces != []
        && AllFit(cells[0].tag, pieces, max, count)
        && Labelling(cells[0].tag, pieces) <= records
        && Lossless(records[|pieces|..], cells[1..], max, count)
  }

  lemma {:induction false} CompactPiecesFit(cell: Labelled, budget: nat, max: nat, count: Counter)
    requires budget >= 1 && CompactPieces(cell, budget, max, count).Ok?
    ensures Joined(CompactPieces(cell, budget, max, count).value) == Shown(cell.value)
    ensures CompactPieces(cell, budget, max, count).value != []
    ensures AllFit(cell.tag, CompactPieces(cell, budget, max, count).value, max, count)
    decreases budget
  {
    PiecesPartition(Shown(cell.value), budget, count);
    if !AllFit(cell.tag, Pieces(Shown(cell.value), budget, count).value, max, count) {
      CompactPiecesFit(cell, budget - 1, max, count);
    }
  }

  lemma CellPiecesFit(cell: Labelled, wide: bool, spec: ChunkSpec, count: Counter)
    requires CellPieces(cell, wide, spec, count).Ok?
    ensures Joined(CellPieces(cell, wide, spec, count).value) == Shown(cell.value)
    ensures CellPieces(cell, wide, spec, count).value != []
    ensures AllFit(cell.tag, CellPieces(cell, wide, spec, count).value, spec.max, count)
  {
    var budget := spec.max - count(cell.tag) - 2;
    if wide {
      PiecesPartition(Shown(cell.value), budget, count);
    } else {
      CompactPiecesFit(cell, budget, spec.max, count);
    }
  }

  /** Both forms are lossless: the pieces of each cell make up its value, or "(empty)". */
  lemma {:induction false} RecordsLossless(cells: seq<Labelled>, wide: bool, spec: ChunkSpec, count: Counter)
    requires Records(cells, wide, spec, count).Ok?
    ensures Lossless(Records(cells, wide, spec, count).value, cells, spec.max, count)
  {
    hide CellPieces, AllFit, Joined;
    if cells != [] {
      var pieces := CellPieces(cells[0], wide, spec, count).value;
      var rest := Records(cells[1..], wide, spec, count).value;
      CellPiecesFit(cells[0], wide, spec, count);
      RecordsLossless(cells[1..], wide, spec, count);
      assert (Labelling(cells[0].tag, pieces) + rest)[|pieces|..] == rest;
    }
  }

  function Values(cells: seq<Labelled>): seq<string> {
    seq(|cells|, k requires 0 <= k < |cells| => cells[k].value)
  }

  function RowMajor(parsed: seq<seq<string>>): seq<string> {
    if parsed == [] then [] else parsed[0] + RowMajor(parsed[1..])
  }

  /** The wide form shows every cell once, row by row. */
  lemma {:induction false} WideCellsAreCells(caption: string, headers: seq<string>, parsed: seq<seq<string>>, row: nat)
    requires Rectangular(headers, parsed)
    ensures Values(WideCells(caption, headers, parsed, row)) == RowMajor(parsed)
    decreases |parsed|
  {
    if parsed != [] {
      var first, rest := RowCells(caption, headers, parsed[0], row, 0), WideCells(caption, headers, parsed[1..], row + 1);
      WideCellsAreCells(caption, headers, parsed[1..], row + 1);
      assert Values(first) == parsed[0];
      assert Values(first + rest) == Values(first) + Values(rest);
    }
  }

  lemma {:induction false} ColumnHeadersAre(headers: seq<string>, column: nat)
    requires column <= |headers|
    ensures Values(ColumnHeaders(headers, column)) == headers[column..]
    decreases |headers| - column
  {
    if column < |headers| {
      ColumnHeadersAre(headers, column + 1);
      ValuesFirst(Labelled("column " + Decimal(column + 1) + " header", headers[column]), ColumnHeaders(headers, column + 1));
      assert headers[column..] == [headers[column]] + headers[column + 1..];
    }
  }

  lemma ValuesFirst(first: Labelled, rest: seq<Labelled>)
    ensures Values([first] + rest) == [first.value] + Values(rest)
  {
  }

  lemma ValuesConcat(a: seq<Labelled>, b: seq<Labelled>)
    ensures Values(a + b) == Values(a) + Values(b)
  {
  }

  lemma {:induction false} CompactRowIs(cells: seq<string>, row: nat, column: nat)
    requires column <= |cells|
    ensures Values(CompactRow(cells, row, column)) == cells[column..]
    decreases |cells| - column
  {
    if column < |cells| {
      CompactRowIs(cells, row, column + 1);
      ValuesFirst(Labelled("Row " + Decimal(row) + "; column " + Decimal(column + 1), cells[column]), CompactRow(cells, row, column + 1));
      assert cells[column..] == [cells[column]] + cells[column + 1..];
    }
  }

  lemma {:induction false} CompactRowsAre(parsed: seq<seq<string>>, row: nat)
    ensures Values(CompactRows(parsed, row)) == RowMajor(parsed)
  {
    if parsed != [] {
      CompactRowIs(parsed[0], row, 0);
      CompactRowsAre(parsed[1..], row + 1);
      ValuesConcat(CompactRow(parsed[0], row, 0), CompactRows(parsed[1..], row + 1));
      assert parsed[0][0..] == parsed[0];
    }
  }

  /** The compact form shows the caption, the headers and every cell once. */
  lemma CompactFieldsAre(reference: string, caption: string, headers: seq<string>, parsed: seq<seq<string>>)
    ensures Values(CompactFields(reference, caption, headers, parsed))
         == (if caption != "" then [caption] else []) + headers + RowMajor(parsed)
  {
    var top := if caption != "" then [Labelled("caption", caption)] else [];
    ColumnHeadersAre(headers, 0);
    CompactRowsAre(parsed, 1);
    ValuesConcat(top, ColumnHeaders(headers, 0));
    ValuesConcat(top + ColumnHeaders(headers, 0), CompactRows(parsed, 1));
    assert headers[0..] == headers;
    var fields := top + ColumnHeaders(headers, 0) + CompactRows(parsed, 1);
    assert Values(UnderReference(reference, fields)) == Values(fields);
    assert Values(top) == if caption != "" then [caption] else [];
  }

  /** A table cut cell by cell loses nothing: its records are, losslessly, those of every cell once in row order, with
      the caption and the headers as records of their own in the compact form. */
  lemma WideTableLossless(header: string, rows: seq<string>, spec: ChunkSpec, count: Counter, caption: string,
                          reference: (string, string, seq<seq<string>>) -> string)
    returns (cells: seq<Labelled>)
    requires WideTable(header, rows, spec, count, caption, reference).Ok?
    ensures Lossless(WideTable(header, rows, spec, count, caption, reference).value, cells, spec.max, count)
    ensures Rectangular(Cells(header), Parsed(rows))
    ensures Values(cells) == RowMajor(Parsed(rows))
         || Values(cells) == (if caption != "" then [caption] else []) + Cells(header) + RowMajor(Parsed(rows))
  {
    hide Records, Lossless, Cells, CompactFields, WideCells;
    var headers, parsed := Cells(header), Parsed(rows);
    var wide := WideCells(caption, headers, parsed, 1);
    if LabelTooLong(wide, spec, count) {
      cells := CompactFields(reference(caption, header, parsed), caption, headers, parsed);
      CompactFieldsAre(reference(caption, header, parsed), caption, headers, parsed);
      RecordsLossless(cells, false, spec, count);
    } else {
      cells := wide;
      WideCellsAreCells(caption, headers, parsed, 1);
      RecordsLossless(cells, true, spec, count);
    }
  }

  /** A label that passes the choice of the wide form is refused by it at exactly one length. */
  lemma WideGap(cell: Labelled, spec: ChunkSpec, count: Counter)
    requires count(cell.tag) < spec.max - 3
    ensures WidePieces(cell, spec, count) == Err(IdentityTooLarge) <==>
              count(cell.tag) == spec.max - 4
  {
    var budget := spec.max - count(cell.tag) - 2;
    if budget >= 3 {
      PiecesErrors(Shown(cell.value), budget, count);
    }
  }

  /** The first cell whose label leaves its value no room, when no cell before it fails. */
  ghost predicate ReachesGap(cells: seq<Labelled>, spec: ChunkSpec, count: Counter) {
    exists k :: 0 <= k < |cells| && count(cells[k].tag) == spec.max - 4 && Records(cells[..k], true, spec, count).Ok?
  }

  lemma {:induction false} RecordsGap(cells: seq<Labelled>, spec: ChunkSpec, count: Counter)
    requires !LabelTooLong(cells, spec, count)
    ensures Records(cells, true, spec, count) == Err(IdentityTooLarge) <==> ReachesGap(cells, spec, count)
  {
    hide WidePieces;
    if cells != [] {
      var first, rest := cells[0], cells[1..];
      assert count(first.tag) < spec.max - 3;
      assert !LabelTooLong(rest, spec, count) by {
        assert forall k :: 0 <= k < |rest| ==> rest[k] == cells[k + 1];
      }
      WideGap(first, spec, count);
      RecordsGap(rest, spec, count);
      forall k | 0 < k <= |cells|
        ensures Records(cells[..k], true, spec, count).Ok? <==> WidePieces(first, spec, count).Ok? && Records(rest[..k - 1], true, spec, count).Ok?
      {
        assert cells[..k][0] == first && cells[..k][1..] == rest[..k - 1];
      }
      if ReachesGap(cells, spec, count) {
        var k :| 0 <= k < |cells| && count(cells[k].tag) == spec.max - 4 && Records(cells[..k], true, spec, count).Ok?;
        if k > 0 {
          assert rest[k - 1] == cells[k];
        }
      }
      if WidePieces(first, spec, count).Ok? && ReachesGap(rest, spec, count) {
        var k :| 0 <= k < |rest| && count(rest[k].tag) == spec.max - 4 && Records(rest[..k], true, spec, count).Ok?;
        assert cells[k + 1] == rest[k] && Records(cells[..k + 1], true, spec, count).Ok?;
      }
      if count(first.tag) == spec.max - 4 {
        assert cells[..0] == [] && Records([], true, spec, count).Ok?;
      }
    }
  }

  /** A table that the choice between the two forms gives to the wide one is refused by it exactly when a label counts
      spec.max - 4 and no cell before it fails. */
  lemma WideTableGap(header: string, rows: seq<string>, spec: ChunkSpec, count: Counter, caption: string,
                     reference: (string, string, seq<seq<string>>) -> string)
    requires Rectangular(Cells(header), Parsed(rows))
    requires !LabelTooLong(WideCells(caption, Cells(header), Parsed(rows), 1), spec, count)
    ensures WideTable(header, rows, spec, count, caption, reference) == Err(IdentityTooLarge)
       <==> ReachesGap(WideCells(caption, Cells(header), Parsed(rows), 1), spec, count)
  {
    hide Cells, Records, ReachesGap, LabelTooLong;
    RecordsGap(WideCells(caption, Cells(header), Parsed(rows), 1), spec, count);
  }

  lemma {:induction false} GapFails(cells: seq<Labelled>, spec: ChunkSpec, count: Counter, k: nat)
    requires !LabelTooLong(cells, spec, count) && k < |cells| && count(cells[k].tag) == spec.max - 4
    ensures Records(cells, true, spec, count).Err?
  {
    hide WidePieces;
    assert count(cells[0].tag) < spec.max - 3;
    if k == 0 {
      WideGap(cells[0], spec, count);
    } else {
      assert !LabelTooLong(cells[1..], spec, count) by {
        assert forall i :: 0 <= i < |cells[1..]| ==> cells[1..][i] == cells[i + 1];
      }
      GapFails(cells[1..], spec, count, k - 1);
    }
  }

  /** What a caller can tell from the labels alone: with one that counts spec.max - 4 the wide form fails, and without one it
      never finds a label too large. */
  lemma WideTableLabels(header: string, rows: seq<string>, spec: ChunkSpec, count: Counter, caption: string,
                        reference: (string, string, seq<seq<string>>) -> string)
    requires Rectangular(Cells(header), Parsed(rows))
    requires !LabelTooLong(WideCells(caption, Cells(header), Parsed(rows), 1), spec, count)
    ensures
      var cells := WideCells(caption, Cells(header), Parsed(rows), 1);
      var table := WideTable(header, rows, spec, count, caption, reference);
      if exists k :: 0 <= k < |cells| && count(cells[k].tag) == spec.max - 4 then table.Err? else table != Err(IdentityTooLarge)
  {
    hide Cells, Records, LabelTooLong;
    var cells := WideCells(caption, Cells(header), Parsed(rows), 1);
    if k :| 0 <= k < |cells| && count(cells[k].tag) == spec.max - 4 {
      GapFails(cells, spec, count, k);
    } else {
      RecordsGap(cells, spec, count);
    }
  }

  // ---------------------------------------------------------------- the loops over the cells

  lemma RecordsStep(out: seq<string>, cells: seq<Labelled>, wide: bool, spec: ChunkSpec, count: Counter)
    requires cells != []
    ensures
      var pieces := CellPieces(cells[0], wide, spec, count);
      Onto(out, Records(cells, wide, spec, count))
      == if pieces.Err? then Err(pieces.error)
         else Onto(out + Labelling(cells[0].tag, pieces.value), Records(cells[1..], wide, spec, count))
  {
    hide CellPieces;
    var pieces, rest := CellPieces(cells[0], wide, spec, count), Records(cells[1..], wide, spec, count);
    if pieces.Ok? && rest.Ok? {
      var first := Labelling(cells[0].tag, pieces.value);
      assert out + (first + rest.value) == out + first + rest.value;
    }
  }

  method CheckFit(tag: string, pieces: seq<string>, max: nat, count: Counter) returns (ok: bool)
    ensures ok <==> AllFit(tag, pieces, max, count)
  {
    var k := 0;
    while k < |pieces|
      invariant 0 <= k <= |pieces| && forall j :: 0 <= j < k ==> count(tag + pieces[j]) <= max
    {
      if count(tag + pieces[k]) > max {
        return false;
      }
      k := k + 1;
    }
    return true;
  }

  /** The records of one cell in the wide form. */
  method AddWideCell(out: seq<string>, cell: Labelled, spec: ChunkSpec, count: Counter) returns (result: Texts)
    ensures result == Onto(out, match WidePieces(cell, spec, count)
                                case Ok(pieces) => Ok(Labelling(cell.tag, pieces))
                                case Err(e) => Err(e))
  {
    hide Pieces, AllFit, Labelling;
    if count(cell.tag) >= spec.max - 3 {
      return Err(IdentityTooLarge);
    }
    var budget := spec.max - count(cell.tag) - 2;
    if budget < 3 {
      return Err(IdentityTooLarge);
    }
    var pieces :- Split(Shown(cell.value), budget, count);
    var fit := CheckFit(cell.tag, pieces, spec.max, count);
    if !fit {
      return Err(BudgetViolated);
    }
    return Ok(out + Labelling(cell.tag, pieces));
  }

  /** The search of the compact form; it ends because the budget goes down. */
  method FitBudget(cell: Labelled, first: nat, max: nat, count: Counter) returns (result: Texts)
    requires first >= 1
    ensures result == CompactPieces(cell, first, max, count)
  {
    var budget := first;
    while true
      invariant 1 <= budget && CompactPieces(cell, first, max, count) == CompactPieces(cell, budget, max, count)
      decreases budget
    {
      var pieces :- Split(Shown(cell.value), budget, count);
      if AllFit(cell.tag, pieces, max, count) {
        return Ok(pieces);
      }
      budget := budget - 1;
      if budget < 1 {
        return Err(IdentityTooLarge);
      }
    }
  }

  /** The records of one field in the compact form. */
  method AddCompactCell(out: seq<string>, cell: Labelled, spec: ChunkSpec, count: Counter) returns (result: Texts)
    ensures result == Onto(out, match CompactCell(cell, spec, count)
                                case Ok(pieces) => Ok(Labelling(cell.tag, pieces))
                                case Err(e) => Err(e))
  {
    hide CompactPieces, Labelling;
    var budget := spec.max - count(cell.tag) - 2;
    if budget < 1 {
      return Err(IdentityTooLarge);
    }
    var pieces :- FitBudget(cell, budget, spec.max, count);
    return Ok(out + Labelling(cell.tag, pieces));
  }

  method CompactRecords(fields: seq<Labelled>, spec: ChunkSpec, count: Counter) returns (result: Texts)
    ensures result == Records(fields, false, spec, count)
  {
    var output: seq<string> := [];
    OntoEnds([], Records(fields, false, spec, count));
    assert fields[0..] == fields;
    for k := 0 to |fields|
      invariant Records(fields, false, spec, count) == Onto(output, Records(fields[k..], false, spec, count))
    {
      hide Records, CompactCell, Labelling;
      RecordsStep(output, fields[k..], false, spec, count);
      assert fields[k..][1..] == fields[k + 1..];
      output :- AddCompactCell(output, fields[k], spec, count);
    }
    OntoEnds(output, Ok([]));
    return Ok(output);
  }

  lemma RowCellsStep(caption: string, headers: seq<string>, cells: seq<string>, row: nat, column: nat, rest: seq<Labelled>)
    requires |cells| == |headers| && column < |headers|
    ensures RowCells(caption, headers, cells, row, column) + rest
         == [Labelled(CellLabel(caption, row, column + 1, headers[column], cells[0]), cells[column])]
            + (RowCells(caption, headers, cells, row, column + 1) + rest)
  {
  }

  /** The inner loop of the wide form: the cells of one row. */
  method AddWideRow(out: seq<string>, caption: string, headers: seq<string>, cells: seq<string>, row: nat, spec: ChunkSpec,
                    count: Counter, ghost rest: seq<Labelled>)
    returns (result: Texts)
    requires |cells| == |headers|
    ensures Onto(out, Records(RowCells(caption, headers, cells, row, 0) + rest, true, spec, count))
         == if result.Ok? then Onto(result.value, Records(rest, true, spec, count)) else Err(result.error)
  {
    var more := out;
    ghost var whole := Onto(out, Records(RowCells(caption, headers, cells, row, 0) + rest, true, spec, count));
    for column := 0 to |headers|
      invariant whole == Onto(more, Records(RowCells(caption, headers, cells, row, column) + rest, true, spec, count))
    {
      hide Records, WidePieces, RowCells, Onto, CellLabel;
      var cell := Labelled(CellLabel(caption, row, column + 1, headers[column], cells[0]), cells[column]);
      ghost var after := RowCells(caption, headers, cells, row, column + 1) + rest;
      RowCellsStep(caption, headers, cells, row, column, rest);
      RecordsStep(more, [cell] + after, true, spec, count);
      assert ([cell] + after)[1..] == after;
      more :- AddWideCell(more, cell, spec, count);
    }
    assert RowCells(caption, headers, cells, row, |headers|) + rest == rest;
    return Ok(more);
  }

  method WideRecords(caption: string, headers: seq<string>, parsed: seq<seq<string>>, spec: ChunkSpec, count: Counter)
    returns (result: Texts)
    requires Rectangular(headers, parsed)
    ensures result == Records(WideCells(caption, headers, parsed, 1), true, spec, count)
  {
    var output: seq<string> := [];
    ghost var whole := Records(WideCells(caption, headers, parsed, 1), true, spec, count);
    OntoEnds([], whole);
    assert parsed[0..] == parsed;
    for k := 0 to |parsed|
      invariant whole == Onto(output, Records(WideCells(caption, headers, parsed[k..], k + 1), true, spec, count))
    {
      hide Records, RowCells, Onto;
      assert parsed[k..][1..] == parsed[k + 1..];
      output :- AddWideRow(output, caption, headers, parsed[k], k + 1, spec, count,
                           WideCells(caption, headers, parsed[k + 1..], k + 2));
    }
    OntoEnds(output, Ok([]));
    return Ok(output);
  }

  // ---------------------------------------------------------------- the whole splitter

  /** What the splitter is given: the regular expression for the rule under a header, the splitter for text that is no
      table, and the digest that names a table in the compact form. */
  datatype TableTools = TableTools(
    isRule: string -> bool,
    prose: (string, ChunkSpec) -> Texts,
    reference: (string, string, seq<seq<string>>) -> string)

  function NonBlank(lines: seq<string>): (r: seq<string>)
    ensures forall k :: 0 <= k < |r| ==> Strip(r[k]) != ""
  {
    if lines == [] then []
    else if Strip(lines[0]) == "" then NonBlank(lines[1..])
    else [lines[0]] + NonBlank(lines[1..])
  }

  /** The first line the rule matches; the number of lines without one. */
  function FirstRule(lines: seq<string>, isRule: string -> bool): (k: nat)
    ensures k <= |lines| && (k < |lines| ==> isRule(lines[k])) && forall j :: 0 <= j < k ==> !isRule(lines[j])
  {
    if lines == [] || isRule(lines[0]) then 0 else 1 + FirstRule(lines[1..], isRule)
  }

  predicate RowTooLong(prefix: seq<string>, rows: seq<string>, max: nat, count: Counter) {
    exists k :: 0 <= k < |rows| && count(UnderHeader(prefix, [rows[k]])) > max
  }

  /** _chunk_table */
  function TableTexts(md: string, spec: ChunkSpec, count: Counter, t: TableTools): Texts {
    var lines := NonBlank(SplitLines(md));
    var rule := FirstRule(lines, t.isRule);
    if rule == |lines| || rule == 0 then t.prose(md, spec)
    else if count(md) <= spec.max then Ok([md])
    else
      var prefix, rows := lines[..rule + 1], lines[rule + 1..];
      if RowTooLong(prefix, rows, spec.max, count) then
        WideTable(lines[rule - 1], rows, spec, count, StrJoin("\n", lines[..rule - 1]), t.reference)
      else RenderPlan(prefix, PlanRows(rows, false, [], count(StrJoin("\n", prefix)), spec, count))
  }

  method ChunkTable(md: string, spec: ChunkSpec, count: Counter, t: TableTools) returns (result: Texts)
    ensures result == TableTexts(md, spec, count, t)
  {
    var lines := NonBlank(SplitLines(md));
    var rule := FirstRule(lines, t.isRule);
    if rule == |lines| || rule == 0 {
      return t.prose(md, spec);
    }
    if count(md) <= spec.max {
      return Ok([md]);
    }
    var prefix, rows := lines[..rule + 1], lines[rule + 1..];
    if RowTooLong(prefix, rows, spec.max, count) {
      var header, caption := lines[rule - 1], StrJoin("\n", lines[..rule - 1]);
      var headers, parsed := Cells(header), Parsed(rows);
      if !Rectangular(headers, parsed) {
        return Err(CellCountMismatch);
      }
      if LabelTooLong(WideCells(caption, headers, parsed, 1), spec, count) {
        result := CompactRecords(CompactFields(t.reference(caption, header, parsed), caption, headers, parsed), spec, count);
      } else {
        result := WideRecords(caption, headers, parsed, spec, count);
      }
      return;
    }
    result := ChunkRows(prefix, rows, spec, count);
  }

  // ---------------------------------------------------------------- generated tables

  lemma {:induction false} NonBlankAll(lines: seq<string>)
    requires forall k :: 0 <= k < |lines| ==> Strip(lines[k]) != ""
    ensures NonBlank(lines) == lines
  {
    if lines != [] {
      NonBlankAll(lines[1..]);
    }
  }

  lemma LineIsNotBlank(cells: seq<string>)
    ensures Strip(Line(cells)) != ""
  {
    var s := Line(cells);
    StripIs("", s, "");
    assert "" + s + "" == s;
  }

  lemma {:induction false} RecordsErrors(cells: seq<Labelled>, wide: bool, spec: ChunkSpec, count: Counter)
    ensures Records(cells, wide, spec, count) != Err(CellCountMismatch)
  {
    if cells != [] {
      CellErrors(cells[0], wide, spec, count);
      RecordsErrors(cells[1..], wide, spec, count);
    }
  }

  lemma CellErrors(cell: Labelled, wide: bool, spec: ChunkSpec, count: Counter)
    ensures CellPieces(cell, wide, spec, count) != Err(CellCountMismatch)
  {
    var budget := spec.max - count(cell.tag) - 2;
    if budget >= 1 {
      PiecesErrors(Shown(cell.value), budget, count);
      CompactErrors(cell, budget, spec.max, count);
    }
  }

  lemma {:induction false} CompactErrors(cell: Labelled, budget: nat, max: nat, count: Counter)
    requires budget >= 1
    ensures CompactPieces(cell, budget, max, count) != Err(CellCountMismatch)
    decreases budget
  {
    PiecesErrors(Shown(cell.value), budget, count);
    if budget > 1 {
      CompactErrors(cell, budget - 1, max, count);
    }
  }

  lemma {:induction false} PlanErrors(rows: seq<string>, carried: bool, current: seq<string>, base: nat, spec: ChunkSpec, count: Counter)
    ensures PlanRows(rows, carried, current, base, spec, count) != Err(CellCountMismatch)
  {
    hide Carries, TokenSum;
    if rows != [] {
      var row := rows[0];
      PiecesErrors(row, PieceBudget(spec, base), count);
      PlanErrors(rows[1..], false, [], base, spec, count);
      PlanErrors(rows[1..], carried, current + [row], base, spec, count);
      if current != [] {
        var keep := Carries(current[|current| - 1], row, base, spec, count);
        PlanErrors(rows[1..], keep, if keep then [current[|current| - 1], row] else [row], base, spec, count);
      }
    }
  }

  /** The lines of a printed table, all with as many cells as the table is wide. */
  lemma PrintedTableLines(rows: seq<seq<Cell>>)
    requires PlainRows(rows) && rows != [] && Width(rows) > 0
    ensures NonBlank(SplitLines(Markdown(rows))) == TableLines(rows)
    ensures forall k :: 0 <= k < |TableLines(rows)| ==> |Cells(TableLines(rows)[k])| == Width(rows)
  {
    hide Cells, SplitLines, OneLine, Line, TableLines;
    forall k | 0 <= k < |TableLines(rows)|
      ensures OneLine(TableLines(rows)[k]) && TableLines(rows)[k] != "" && Strip(TableLines(rows)[k]) != ""
      ensures |Cells(TableLines(rows)[k])| == Width(rows)
    {
      TopLines(rows);
      PrintedLine(rows, k);
      LineOfCells(rows, k);
      LineIsNotBlank(PrintedCells(rows, k));
    }
    LinesOfJoin(TableLines(rows));
    NonBlankAll(TableLines(rows));
  }

  /** The cardinality error is unreachable for the tables the loaders print. */
  lemma PrintedTablesAreRectangular(rows: seq<seq<Cell>>, spec: ChunkSpec, count: Counter, t: TableTools)
    requires PlainRows(rows) && rows != [] && Width(rows) > 0
    requires t.prose(Markdown(rows), spec) != Err(CellCountMismatch)
    ensures TableTexts(Markdown(rows), spec, count, t) != Err(CellCountMismatch)
  {
    hide Cells, SplitLines, NonBlank, TableLines, PlanRows, Records;
    PrintedTableLines(rows);
    var lines := TableLines(rows);
    var rule := FirstRule(lines, t.isRule);
    if 0 < rule < |lines| {
      var header, body, prefix := lines[rule - 1], lines[rule + 1..], lines[..rule + 1];
      var headers, parsed, caption := Cells(header), Parsed(body), StrJoin("\n", lines[..rule - 1]);
      forall k | 0 <= k < |parsed| ensures |parsed[k]| == |headers| {
        assert body[k] == lines[rule + 1 + k];
      }
      RecordsErrors(WideCells(caption, headers, parsed, 1), true, spec, count);
      RecordsErrors(CompactFields(t.reference(caption, header, parsed), caption, headers, parsed), false, spec, count);
      PlanErrors(body, false, [], count(StrJoin("\n", prefix)), spec, count);
    }
  }
}

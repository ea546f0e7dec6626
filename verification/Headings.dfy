/** The heading prefix of a chunk and the budget it takes from the text. */
module Headings {
  import opened ChunkText
  import opened HardSplit
  import opened Prelude

  /** Where the last " > " of the path stands; -1 without one. */
  function LastArrow(path: string, end: nat): (k: int)
    requires end <= |path|
    ensures k == -1 || (0 <= k && k + 3 <= end && path[k..k + 3] == " > ")
  {
    if end < 3 then -1
    else if path[end - 3..end] == " > " then end - 3
    else LastArrow(path, end - 1)
  }

  /** section_path.rsplit(" > ", 1)[-1] */
  function Nearest(path: string): string {
    var k := LastArrow(path, |path|);
    if k < 0 then path else path[k + 3..]
  }

  function AtLeast3(n: int): (r: nat)
    ensures 3 <= r && n <= r && (r == 3 || r == n)
  {
    if n < 3 then 3 else n
  }

  /** The section path when it is short enough, else as much of the nearest heading as fits a third of the limit. */
  function BoundedHeading(path: Option<string>, limit: nat, count: Counter): Result<string, ChunkError> {
    if path.None? || path.value == "" then Ok("")
    else
      var budget := AtLeast3(limit / 3);
      if count(path.value) <= budget then Ok(path.value)
      else
        var parts :- Pieces(Nearest(path.value), budget, count);
        if parts == [] then Err(EmptyHeading) else Ok(parts[0])
  }

  /** The path is too long as a whole, and ends with its separator. */
  predicate NoHeading(path: Option<string>, limit: nat, count: Counter) {
    && path.Some? && count(path.value) > AtLeast3(limit / 3)
    && |path.value| >= 3 && path.value[|path.value| - 3..] == " > "
  }

  lemma {:induction false} LastArrowIsLast(path: string, end: nat)
    requires end <= |path|
    ensures LastArrow(path, end) < 0 ==> end < 3 || path[end - 3..end] != " > "
    ensures LastArrow(path, end) >= 0 ==> (LastArrow(path, end) + 3 == end <==> path[end - 3..end] == " > ")
  {
  }

  /** The nearest heading is empty exactly when the path is, or ends with its separator. */
  lemma NearestEmptyExactlyWhen(path: string)
    ensures Nearest(path) == "" <==> path == "" || (|path| >= 3 && path[|path| - 3..] == " > ")
  {
    LastArrowIsLast(path, |path|);
    assert path[..|path|] == path;
    assert |path| >= 3 ==> path[|path| - 3..|path|] == path[|path| - 3..];
  }

  /** Exactly when the first of no pieces is asked for. */
  lemma EmptyHeadingExactlyWhen(path: Option<string>, limit: nat, count: Counter)
    ensures BoundedHeading(path, limit, count) == Err(EmptyHeading) <==> NoHeading(path, limit, count)
  {
    if path.Some? && path.value != "" {
      NearestEmptyExactlyWhen(path.value);
      PiecesErrors(Nearest(path.value), AtLeast3(limit / 3), count);
      if Nearest(path.value) != "" && Pieces(Nearest(path.value), AtLeast3(limit / 3), count).Ok? {
        PiecesNotEmpty(Nearest(path.value), AtLeast3(limit / 3), count);
      }
    }
  }

  lemma PiecesNotEmpty(s: string, target: nat, count: Counter)
    requires s != "" && Pieces(s, target, count).Ok?
    ensures Pieces(s, target, count).value != []
  {
  }

  /** The budgets that remain for the text under a heading. */
  function Reserve(spec: ChunkSpec, path: Option<string>, count: Counter): Result<ChunkSpec, ChunkError> {
    var prefix :- BoundedHeading(path, spec.max, count);
    if prefix == "" then Ok(spec)
    else
      var reserve := count(prefix) + 2;
      var small := if spec.max - reserve - 1 < 1 then 1 else spec.max - reserve - 1;
      Ok(ChunkSpec(AtLeast3(spec.target - reserve), spec.overlap, AtLeast3(spec.max - reserve),
                   if spec.min < small then spec.min else small))
  }

  /** The heading before the text. */
  function Prefixed(prefix: string, text: string): string {
    if prefix == "" then text else prefix + "\n\n" + text
  }

  /** What is left of a text once the heading before it is taken off. */
  function Body(text: string, prefix: string): string {
    if prefix != "" && prefix + "\n\n" <= text then text[|prefix| + 2..] else text
  }

  lemma BodyOfPrefixed(prefix: string, text: string)
    ensures Body(Prefixed(prefix, text), prefix) == text
  {
    if prefix != "" {
      assert prefix + "\n\n" + text == prefix + ("\n\n" + text);
    }
  }

  /** The budget of a final fragment. */
  function BodyBudget(prefix: string, limit: nat, count: Counter): nat {
    AtLeast3(if prefix != "" then limit - count(prefix + "\n\n") else limit)
  }

  lemma ReserveKeepsOrder(spec: ChunkSpec, path: Option<string>, count: Counter)
    requires spec.target <= spec.max && Reserve(spec, path, count).Ok?
    ensures Reserve(spec, path, count).value.target <= Reserve(spec, path, count).value.max
  {
  }

  predicate SeparatorAt(path: string, k: nat) {
    k + 3 <= |path| && path[k..k + 3] == " > "
  }

  /** The nearest heading is what follows the last separator, or the whole path. */
  lemma NearestMeans(path: string)
    ensures
      if exists k: nat :: SeparatorAt(path, k) then
        exists k: nat :: SeparatorAt(path, k) && Nearest(path) == path[k + 3..] && forall later: nat :: k < later ==> !SeparatorAt(path, later)
      else Nearest(path) == path
  {
    LastArrowLast(path, |path|);
    var k := LastArrow(path, |path|);
    if k >= 0 {
      assert SeparatorAt(path, k);
    }
  }

  lemma {:induction false} LastArrowLast(path: string, end: nat)
    requires end <= |path|
    ensures forall later: nat :: LastArrow(path, end) < later && later + 3 <= end ==> !SeparatorAt(path, later)
  {
    if 3 <= end && path[end - 3..end] != " > " {
      LastArrowLast(path, end - 1);
    }
  }

  /** The heading that is shown: the path if it takes no more than a third of the limit (or 3 tokens), else the first piece of
      the nearest heading that does. */
  lemma BoundedHeadingMeans(path: Option<string>, limit: nat, count: Counter)
    ensures
      var third := if limit / 3 < 3 then 3 else limit / 3;
      var shown := BoundedHeading(path, limit, count);
      if path == None || path == Some("") then shown == Ok("")
      else if count(path.value) <= third then shown == Ok(path.value)
      else
        var pieces := Pieces(Nearest(path.value), third, count);
        if pieces.Ok? && pieces.value != [] then
          shown == Ok(pieces.value[0]) && pieces.value[0] <= Nearest(path.value) && count(pieces.value[0]) <= third && pieces.value[0] != ""
        else shown == Err(if pieces.Err? then pieces.error else EmptyHeading)
  {
    hide Nearest;
    if path.Some? && Pieces(Nearest(path.value), AtLeast3(limit / 3), count).Ok? {
      PiecesPartition(Nearest(path.value), AtLeast3(limit / 3), count);
    }
  }

  /** What is left for the text under a heading: the heading, two tokens for the blank line, and never less than 3. */
  lemma ReserveMeans(spec: ChunkSpec, path: Option<string>, count: Counter)
    requires BoundedHeading(path, spec.max, count).Ok?
    ensures
      var prefix := BoundedHeading(path, spec.max, count).value;
      var taken := count(prefix) + 2;
      var inner := Reserve(spec, path, count);
      if prefix == "" then inner == Ok(spec)
      else
        && inner.Ok? && inner.value.overlap == spec.overlap
        && inner.value.target == Max(3, if spec.target > taken then spec.target - taken else 0)
        && inner.value.max == Max(3, if spec.max > taken then spec.max - taken else 0)
        && inner.value.min == (var most := if spec.max - taken - 1 > 1 then spec.max - taken - 1 else 1; if spec.min <= most then spec.min else most)
  {
    hide BoundedHeading;
  }

  /** A heading goes before its text with a blank line, and comes off again; nothing else does. */
  lemma PrefixedMeans(prefix: string, text: string)
    ensures Prefixed(prefix, text) == (if |prefix| == 0 then text else prefix + "\n" + "\n" + text)
    ensures Body(text, prefix) == (if |prefix| > 0 && |text| >= |prefix| + 2 && text[..|prefix| + 2] == prefix + "\n\n" then text[|prefix| + 2..] else text)
  {
  }

  /** The budget of a final fragment: what the heading with its blank line leaves of the limit, never less than 3. */
  lemma BodyBudgetMeans(prefix: string, limit: nat, count: Counter)
    ensures BodyBudget(prefix, limit, count)
         == Max(3, if prefix == "" then limit else if limit > count(prefix + "\n\n") then limit - count(prefix + "\n\n") else 0)
  {
  }
}

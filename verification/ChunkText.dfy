/** The vocabulary of the chunker: token counters, budgets and half-open character intervals. */
module ChunkText {
  import opened Prelude

  /** Any function from texts to token counts. */
  type Counter = string -> nat

  datatype ChunkSpec = ChunkSpec(target: nat, overlap: int, max: nat, min: int)

  /** The errors the chunker raises. */
  datatype ChunkError =
    | CharacterExceedsBudget   // one source character does not fit
    | InvalidBudget            // no room for evidence
    | EmptyHeading             // a section path that ends with its separator and is too long as a whole
    | TableSplit               // a final split would separate a table cell from its identity
    | BudgetViolated           // a finished chunk is above the limit
    | CellCountMismatch        // a table row has more or fewer cells than the header
    | IdentityTooLarge         // the label of a table cell leaves no room for its value

  datatype Range = Range(start: nat, end: nat)

  predicate Within(r: Range, text: string) {
    r.start < r.end <= |text|
  }

  /** text[r.start:r.end] */
  function Slice(text: string, r: Range): string
    requires Within(r, text)
  {
    text[r.start..r.end]
  }

  /** Position p lies in one of the intervals. */
  ghost predicate Covers(ranges: seq<Range>, p: nat) {
    exists k :: 0 <= k < |ranges| && ranges[k].start <= p < ranges[k].end
  }

  type Cuts = string -> seq<nat>

  predicate SortedWithin(cuts: seq<nat>, length: nat) {
    && (forall k :: 0 <= k < |cuts| ==> cuts[k] <= length)
    && forall j, k :: 0 <= j < k < |cuts| ==> cuts[j] <= cuts[k]
  }

  /** The ends of the matches of a regular expression: some sorted positions of each text. */
  ghost predicate CutsTexts(cuts: Cuts) {
    forall s: string :: SortedWithin(cuts(s), |s|)
  }

  /** front and then the items of the result. */
  function Onto<T>(front: seq<T>, items: Result<seq<T>, ChunkError>): Result<seq<T>, ChunkError> {
    match items
    case Ok(more) => Ok(front + more)
    case Err(e) => Err(e)
  }

  lemma OntoEnds<T>(front: seq<T>, items: Result<seq<T>, ChunkError>)
    ensures Onto([], items) == items && Onto(front, Ok([])) == Ok(front)
  {
    if items.Ok? {
      assert [] + items.value == items.value;
    }
    assert front + [] == front;
  }

  lemma OntoTwice<T>(front: seq<T>, first: seq<T>, items: Result<seq<T>, ChunkError>)
    ensures Onto(front, Onto(first, items)) == Onto(front + first, items)
  {
    if items.Ok? {
      assert front + (first + items.value) == front + first + items.value;
    }
  }
}

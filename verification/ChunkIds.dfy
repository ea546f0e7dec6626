/** The identity that the chunk table and the vector table share. */
module ChunkIds {
  import opened Decimals
  import opened Prelude
  import opened PythonText

  // ---------------------------------------------------------------- rendering

  function Zeros(n: nat): (s: string)
    ensures |s| == n
  {
    seq(n, i => '0')
  }

  /** s.rjust(width, "0") */
  function Pad(s: string, width: nat): string {
    if |s| < width then Zeros(width - |s|) + s else s
  }

  /** f"{n:0{width}d}" */
  function Padded(n: nat, width: nat): string {
    Pad(Decimal(n), width)
  }

  lemma PadMore(front: string, c: char, width: nat)
    requires |front| < width
    ensures Pad(front + [c], width) == Pad(front, width - 1) + [c]
  {
  }

  /** document id + zero-padded ordinal, counted from 1 */
  function ChunkId(documentId: string, ordinal: nat, total: nat): string {
    var width := |Decimal(total)|;
    documentId + Padded(ordinal + 1, if width < 3 then 3 else width)
  }

  /** The last digits of a number, exactly so many. */
  function Fixed(n: nat, width: nat): (s: string)
    ensures |s| == width
  {
    if width == 0 then "" else Fixed(n / 10, width - 1) + [Digit(n % 10)]
  }

  lemma {:induction false} FixedOfZero(width: nat)
    ensures Fixed(0, width) == Zeros(width)
  {
    if width > 0 {
      FixedOfZero(width - 1);
    }
  }

  lemma {:induction false} PaddedIsFixed(n: nat, width: nat)
    requires n < TenTo(width) && width >= 1
    ensures Padded(n, width) == Fixed(n, width)
    decreases width
  {
    DecimalLength(n, width);
    if n < 10 {
      FixedOfZero(width - 1);
      assert Fixed(n, width) == Fixed(0, width - 1) + [Digit(n)];
      if width == 1 {
        assert Fixed(0, 0) == "";
      }
    } else {
      assert n / 10 < TenTo(width - 1);
      PaddedIsFixed(n / 10, width - 1);
      PadMore(Decimal(n / 10), Digit(n % 10), width);
    }
  }

  // ---------------------------------------------------------------- order

  lemma {:induction false} BeforeLonger(a: string, b: string, x: string, y: string)
    requires |a| == |b| && Before(a, b)
    ensures Before(a + x, b + y)
  {
    if a != "" && a[0] == b[0] {
      BeforeLonger(a[1..], b[1..], x, y);
      assert (a + x)[1..] == a[1..] + x && (b + y)[1..] == b[1..] + y;
    }
  }

  lemma {:induction false} BeforeBehind(p: string, a: string, b: string)
    requires Before(a, b)
    ensures Before(p + a, p + b)
  {
    if p == "" {
      assert p + a == a && p + b == b;
    } else {
      BeforeBehind(p[1..], a, b);
      assert (p + a)[1..] == p[1..] + a && (p + b)[1..] == p[1..] + b;
    }
  }

  lemma {:induction false} FixedOrdered(m: nat, n: nat, width: nat)
    requires m < n < TenTo(width)
    ensures Before(Fixed(m, width), Fixed(n, width))
    decreases width
  {
    if m / 10 < n / 10 {
      FixedOrdered(m / 10, n / 10, width - 1);
      BeforeLonger(Fixed(m / 10, width - 1), Fixed(n / 10, width - 1), [Digit(m % 10)], [Digit(n % 10)]);
    } else {
      assert m / 10 == n / 10 && m % 10 < n % 10;
      BeforeBehind(Fixed(m / 10, width - 1), [Digit(m % 10)], [Digit(n % 10)]);
    }
  }

  /** The ids of one document sort in the order of their ordinals, however many chunks there are. */
  lemma ChunkIdsSort(documentId: string, i: nat, j: nat, total: nat)
    requires i < j < total
    ensures Before(ChunkId(documentId, i, total), ChunkId(documentId, j, total))
    ensures ChunkId(documentId, i, total) != ChunkId(documentId, j, total)
  {
    var width := if |Decimal(total)| < 3 then 3 else |Decimal(total)|;
    DecimalBound(total);
    TenToGrows(|Decimal(total)|, width);
    PaddedIsFixed(i + 1, width);
    PaddedIsFixed(j + 1, width);
    FixedOrdered(i + 1, j + 1, width);
    BeforeBehind(documentId, Fixed(i + 1, width), Fixed(j + 1, width));
    BeforeIrreflexive(ChunkId(documentId, i, total));
  }

  lemma {:induction false} TenToGrows(m: nat, n: nat)
    requires m <= n
    ensures TenTo(m) <= TenTo(n)
    decreases n - m
  {
    if m < n {
      TenToGrows(m + 1, n);
    }
  }

  lemma {:induction false} ValueOfFixed(n: nat, width: nat)
    requires n < TenTo(width)
    ensures forall c :: c in Fixed(n, width) ==> IsDigit(c)
    ensures Value(Fixed(n, width)) == n
    decreases width
  {
    if width > 0 {
      ValueOfFixed(n / 10, width - 1);
      var s := Fixed(n, width);
      assert s[..|s| - 1] == Fixed(n / 10, width - 1);
      assert IsDigit(Digit(n % 10)) && DigitValue(Digit(n % 10)) == n % 10;
    }
  }

  /** An id is the id of the document and then the position of the chunk, counted from 1, in at least three digits and as many
      as the number of chunks has. */
  lemma ChunkIdReads(documentId: string, i: nat, total: nat)
    requires i < total
    ensures
      var id, digits := ChunkId(documentId, i, total), |Decimal(total)|;
      && |id| == |documentId| + (if digits > 3 then digits else 3) && id[..|documentId|] == documentId
      && (forall c :: c in id[|documentId|..] ==> IsDigit(c)) && Value(id[|documentId|..]) == i + 1
  {
    var width := if |Decimal(total)| > 3 then |Decimal(total)| else 3;
    DecimalBound(total);
    TenToGrows(|Decimal(total)|, width);
    PaddedIsFixed(i + 1, width);
    ValueOfFixed(i + 1, width);
    assert ChunkId(documentId, i, total)[|documentId|..] == Fixed(i + 1, width);
  }

  /** Chunks of two owners whose ids are equally long never share an id. */
  lemma OwnersDoNotMeet(a: string, b: string, i: nat, j: nat, m: nat, n: nat)
    requires |a| == |b| && a != b
    ensures ChunkId(a, i, m) != ChunkId(b, j, n)
  {
    assert ChunkId(a, i, m)[..|a|] == a && ChunkId(b, j, n)[..|b|] == b;
  }

  // ---------------------------------------------------------------- stamping

  /** The digest of a text is represented by the text. */
  datatype ChunkRecord = ChunkRecord(ordinal: nat, text: string, id: Option<string>, sha: Option<string>)

  function Stamped(documentId: string, r: ChunkRecord, total: nat): ChunkRecord {
    if r.id.Some? && r.sha.Some? then r
    else r.(id := Some(ChunkId(documentId, r.ordinal, total)), sha := Some(r.text))
  }

  function Finalized(documentId: string, chunks: seq<ChunkRecord>): (r: seq<ChunkRecord>)
    ensures |r| == |chunks|
  {
    seq(|chunks|, k requires 0 <= k < |chunks| => Stamped(documentId, chunks[k], |chunks|))
  }

  /** finalize_chunks, which stamps the records in place. */
  method FinalizeChunks(documentId: string, chunks: array<ChunkRecord>)
    modifies chunks
    ensures chunks[..] == Finalized(documentId, old(chunks[..]))
  {
    hide ChunkId;
    var total := chunks.Length;
    for k := 0 to total
      invariant forall j :: 0 <= j < k ==> chunks[j] == Stamped(documentId, old(chunks[j]), total)
      invariant forall j :: k <= j < total ==> chunks[j] == old(chunks[j])
    {
      if !(chunks[k].id.Some? && chunks[k].sha.Some?) {
        chunks[k] := chunks[k].(id := Some(ChunkId(documentId, chunks[k].ordinal, total)), sha := Some(chunks[k].text));
      }
    }
  }

  predicate InOrder(chunks: seq<ChunkRecord>) {
    forall k :: 0 <= k < |chunks| ==> chunks[k].ordinal == k
  }

  predicate Unstamped(chunks: seq<ChunkRecord>) {
    forall k :: 0 <= k < |chunks| ==> chunks[k].id.None? || chunks[k].sha.None?
  }

  /** Stamping is idempotent whoever stamps again, and the ids of new chunks sort by ordinal and carry the texts'
      hashes. */
  lemma FinalizedOnce(documentId: string, again: string, chunks: seq<ChunkRecord>)
    ensures Finalized(again, Finalized(documentId, chunks)) == Finalized(documentId, chunks)
    ensures
      var r := Finalized(documentId, chunks);
      InOrder(chunks) && Unstamped(chunks) ==>
        && (forall k :: 0 <= k < |r| ==> r[k].id.Some? && r[k].sha == Some(chunks[k].text))
        && forall j, k :: 0 <= j < k < |r| ==> Before(r[j].id.value, r[k].id.value) && r[j].id != r[k].id
  {
    var r := Finalized(documentId, chunks);
    if InOrder(chunks) && Unstamped(chunks) {
      forall j, k | 0 <= j < k < |r| ensures Before(r[j].id.value, r[k].id.value) && r[j].id != r[k].id {
        ChunkIdsSort(documentId, j, k, |chunks|);
      }
    }
  }
}

/** Hybrid retrieval on the exact branch: two candidate lists ranked in SQL over the rows a caller can see,
    fused by reciprocal rank. */
module HybridSearch {
  import opened Access
  import opened Prelude
  import opened PythonText

  type Id = string

  const RRF_K: nat := 60

  /** A row of the retrieval view with what the two SQL rankings compute for this query. */
  datatype Candidate = Candidate(row: Row, tenantId: string, deleted: bool, distance: real, matches: bool, lexScore: real)

  /** What is asked, and whether the database fails on the lexical part of it. */
  datatype Query = Query(tenantId: string, access: AccessFilter, topK: nat, multiplier: nat, minCandidates: nat, hasText: bool,
                         lexicalFails: bool)

  /** How many candidates each channel fetches. */
  function PoolSize(q: Query): nat {
    if q.hasText then Max(q.topK, Max(q.topK * q.multiplier, q.minCandidates)) else q.topK
  }

  /** The common WHERE clause of both channels. */
  predicate Eligible(q: Query, c: Candidate) {
    && !c.deleted
    && (c.tenantId == q.tenantId || c.row.scope == "global")
    && Pushdown(q.access, c.row) == True
  }

  function Visible(table: map<Id, Candidate>, q: Query): map<Id, Candidate> {
    map c | c in table && Eligible(q, table[c]) :: table[c]
  }

  // ---------------------------------------------------------------- orders and their first n elements

  /** `list` is the first n elements of `s` in the order `less`, all of `s` if it has no more. */
  ghost predicate TopOf(s: set<Id>, less: (Id, Id) -> bool, n: nat, list: seq<Id>) {
    && |list| == (if n <= |s| then n else |s|)
    && (forall i, j :: 0 <= i < j < |list| ==> less(list[i], list[j]))
    && (forall x :: x in list ==> x in s)
    && (forall x, y :: x in s && x !in list && y in list ==> less(y, x))
  }

  ghost predicate StrictTotal(s: set<Id>, less: (Id, Id) -> bool) {
    && (forall x :: x in s ==> !less(x, x))
    && (forall x, y :: x in s && y in s && x != y ==> less(x, y) || less(y, x))
    && (forall x, y :: x in s && y in s ==> !(less(x, y) && less(y, x)))
  }

  lemma TopTail(s: set<Id>, less: (Id, Id) -> bool, n: nat, list: seq<Id>)
    requires TopOf(s, less, n, list) && StrictTotal(s, less) && list != [] && 0 < n
    ensures TopOf(s - {list[0]}, less, n - 1, list[1..])
    ensures forall x :: x in s && x != list[0] ==> less(list[0], x)
  {
    var first, rest := list[0], s - {list[0]};
    assert list == [first] + list[1..];
    forall x | x in list[1..] ensures x in rest && less(first, x) {
      var i :| 0 <= i < |list| - 1 && list[1..][i] == x;
      assert less(list[0], list[i + 1]);
      assert x in list;
    }
    forall x, y | x in rest && x !in list[1..] && y in list[1..] ensures less(y, x) {
      assert x !in list && y in list;
    }
    forall x | x in s && x != first ensures less(first, x) {
      if x in list {
        assert x in list[1..];
      }
    }
  }

  /** The first n elements in a total order are unique. */
  lemma {:induction false} TopUnique(s: set<Id>, less: (Id, Id) -> bool, n: nat, a: seq<Id>, b: seq<Id>)
    requires TopOf(s, less, n, a) && TopOf(s, less, n, b) && StrictTotal(s, less)
    ensures a == b
    decreases n
  {
    if a != [] {
      TopTail(s, less, n, a);
      TopTail(s, less, n, b);
      assert a[0] in a && b[0] in b;
      assert a[0] == b[0];
      TopUnique(s - {a[0]}, less, n - 1, a[1..], b[1..]);
      assert a == [a[0]] + a[1..] && b == [b[0]] + b[1..];
    }
  }

  // ---------------------------------------------------------------- the two SQL rankings

  function DenseOrder(rows: map<Id, Candidate>): (Id, Id) -> bool {
    (a: Id, b: Id) =>
      a in rows && b in rows && (rows[a].distance < rows[b].distance || (rows[a].distance == rows[b].distance && Before(a, b)))
  }

  function LexicalOrder(rows: map<Id, Candidate>): (Id, Id) -> bool {
    (a: Id, b: Id) =>
      a in rows && b in rows && (rows[a].lexScore > rows[b].lexScore || (rows[a].lexScore == rows[b].lexScore && Before(a, b)))
  }

  function Matching(rows: map<Id, Candidate>): set<Id> {
    set c | c in rows && rows[c].matches
  }

  /** ORDER BY distance, chunk_id LIMIT pool over the visible rows. */
  ghost predicate DenseResult(table: map<Id, Candidate>, q: Query, list: seq<Id>) {
    TopOf(Visible(table, q).Keys, DenseOrder(Visible(table, q)), PoolSize(q), list)
  }

  /** How many rows the lexical channel gives at most; none without a text, or when its query fails. */
  function LexicalSize(q: Query): nat {
    if q.hasText && !q.lexicalFails then PoolSize(q) else 0
  }

  /** ORDER BY lex_score DESC, chunk_id LIMIT pool over the visible rows that match the text. */
  ghost predicate LexicalResult(table: map<Id, Candidate>, q: Query, list: seq<Id>) {
    TopOf(Matching(Visible(table, q)), LexicalOrder(Visible(table, q)), LexicalSize(q), list)
  }

  lemma DenseOrderTotal(rows: map<Id, Candidate>)
    ensures StrictTotal(rows.Keys, DenseOrder(rows))
  {
    forall a, b { BeforeTotal(a, b); }
    forall a { BeforeIrreflexive(a); }
  }

  lemma LexicalOrderTotal(rows: map<Id, Candidate>)
    ensures StrictTotal(Matching(rows), LexicalOrder(rows))
  {
    forall a, b { BeforeTotal(a, b); }
    forall a { BeforeIrreflexive(a); }
  }

  // ---------------------------------------------------------------- fusion

  /** What one channel contributes: 1 / (60 + rank), ranks from one. */
  function RankScore(list: seq<Id>, id: Id): real {
    if id in list then 1.0 / (RRF_K + 1 + IndexOf(list, id)) as real else 0.0
  }

  function IndexOf(list: seq<Id>, x: Id): (i: nat)
    requires x in list
    ensures i < |list| && list[i] == x && forall k :: 0 <= k < i ==> list[k] != x
  {
    if list[0] == x then 0 else 1 + IndexOf(list[1..], x)
  }

  function FusedScore(dense: seq<Id>, lexical: seq<Id>, id: Id): real {
    RankScore(dense, id) + RankScore(lexical, id)
  }

  /** The order in which ids first appear: the dense list, then what only the lexical list has. */
  function Appearance(dense: seq<Id>, lexical: seq<Id>): seq<Id>
    decreases |lexical|
  {
    if lexical == [] then dense
    else
      var before := Appearance(dense, lexical[..|lexical| - 1]);
      var last := lexical[|lexical| - 1];
      if last in before then before else before + [last]
  }

  lemma {:induction false} AppearanceIsUnion(dense: seq<Id>, lexical: seq<Id>)
    requires Distinct(dense)
    ensures Distinct(Appearance(dense, lexical))
    ensures forall x :: x in Appearance(dense, lexical) <==> x in dense || x in lexical
    decreases |lexical|
  {
    if lexical != [] {
      AppearanceIsUnion(dense, lexical[..|lexical| - 1]);
      assert lexical == lexical[..|lexical| - 1] + [lexical[|lexical| - 1]];
    }
  }

  predicate FusedBefore(dense: seq<Id>, lexical: seq<Id>, a: Id, b: Id) {
    var seen := Appearance(dense, lexical);
    && a in seen
    && b in seen
    && (|| FusedScore(dense, lexical, a) > FusedScore(dense, lexical, b)
        || (FusedScore(dense, lexical, a) == FusedScore(dense, lexical, b) && IndexOf(seen, a) < IndexOf(seen, b)))
  }

  function FusedOrder(dense: seq<Id>, lexical: seq<Id>): (Id, Id) -> bool {
    (a: Id, b: Id) => FusedBefore(dense, lexical, a, b)
  }

  function Union(dense: seq<Id>, lexical: seq<Id>): set<Id> {
    (set x | x in dense) + (set x | x in lexical)
  }

  lemma FusedOrderTotal(dense: seq<Id>, lexical: seq<Id>)
    requires Distinct(dense)
    ensures StrictTotal(Union(dense, lexical), FusedOrder(dense, lexical))
  {
    AppearanceIsUnion(dense, lexical);
  }

  lemma {:induction false} IndexOfDistinct(list: seq<Id>, i: nat)
    requires Distinct(list) && i < |list|
    ensures list[i] in list && IndexOf(list, list[i]) == i
  {
    var k := IndexOf(list, list[i]);
    assert k == i;
  }

  predicate Ahead(ids: seq<Id>, score: map<Id, real>, a: Id, b: Id) {
    && a in ids && b in ids && a in score && b in score
    && (score[a] > score[b] || (score[a] == score[b] && IndexOf(ids, a) < IndexOf(ids, b)))
  }

  ghost predicate SortedDown(list: seq<Id>, ids: seq<Id>, score: map<Id, real>) {
    forall i, j :: 0 <= i < j < |list| ==> Ahead(ids, score, list[i], list[j])
  }

  lemma InsertedInOrder(list: seq<Id>, ids: seq<Id>, score: map<Id, real>, p: nat, x: Id)
    requires p <= |list| && SortedDown(list, ids, score)
    requires forall i :: 0 <= i < p ==> Ahead(ids, score, list[i], x)
    requires forall i :: p <= i < |list| ==> Ahead(ids, score, x, list[i])
    ensures SortedDown(list[..p] + [x] + list[p..], ids, score)
    ensures forall y :: y in list[..p] + [x] + list[p..] <==> y in list || y == x
  {
    assert list == list[..p] + list[p..];
  }

  /** sorted(ids, key=score, reverse=True): descending, equal scores in their original order. */
  method SortDown(ids: seq<Id>, score: map<Id, real>) returns (sorted: seq<Id>)
    requires Distinct(ids) && forall x :: x in ids ==> x in score
    ensures |sorted| == |ids| && forall x :: x in sorted <==> x in ids
    ensures SortedDown(sorted, ids, score)
  {
    sorted := [];
    for k := 0 to |ids|
      invariant |sorted| == k
      invariant forall x :: x in sorted <==> x in ids[..k]
      invariant SortedDown(sorted, ids, score)
    {
      sorted := Insert(sorted, ids, score, k);
      assert ids[..k + 1] == ids[..k] + [ids[k]];
    }
    assert ids[..|ids|] == ids;
  }

  lemma EarlierIds(ids: seq<Id>, k: nat, x: Id)
    requires Distinct(ids) && k < |ids| && x in ids[..k]
    ensures x in ids && IndexOf(ids, x) < k
  {
    var i :| 0 <= i < k && ids[..k][i] == x;
    IndexOfDistinct(ids, i);
  }

  /** Places the k-th id behind every id that does not score less. */
  method Insert(list: seq<Id>, ids: seq<Id>, score: map<Id, real>, k: nat) returns (longer: seq<Id>)
    requires Distinct(ids) && (forall x :: x in ids ==> x in score) && k < |ids|
    requires SortedDown(list, ids, score) && forall x :: x in list <==> x in ids[..k]
    ensures |longer| == |list| + 1 && SortedDown(longer, ids, score)
    ensures forall x :: x in longer <==> x in list || x == ids[k]
  {
    var x := ids[k];
    IndexOfDistinct(ids, k);
    forall y | y in list ensures y in ids && IndexOf(ids, y) < k {
      EarlierIds(ids, k, y);
    }
    var p := 0;
    while p < |list| && score[list[p]] >= score[x]
      invariant p <= |list|
      invariant forall i :: 0 <= i < p ==> Ahead(ids, score, list[i], x)
    {
      assert list[p] in list;
      p := p + 1;
    }
    forall i | p <= i < |list| ensures Ahead(ids, score, x, list[i]) {
      assert list[p] in list && list[i] in list;
      assert p < i ==> Ahead(ids, score, list[p], list[i]);
    }
    InsertedInOrder(list, ids, score, p, x);
    longer := list[..p] + [x] + list[p..];
  }

  /** fused.get(id, 0.0) */
  function Get(fused: map<Id, real>, id: Id): real {
    if id in fused then fused[id] else 0.0
  }

  ghost predicate DenseScores(dense: seq<Id>, seen: seq<Id>, fused: map<Id, real>) {
    && seen == dense
    && fused.Keys == Union(dense, [])
    && forall x :: x in fused ==> fused[x] == RankScore(dense, x)
  }

  /** Scores of the first channel, in order of first appearance. */
  method AddDense(dense: seq<Id>) returns (seen: seq<Id>, fused: map<Id, real>)
    requires Distinct(dense)
    ensures DenseScores(dense, seen, fused)
  {
    seen, fused := [], map[];
    for rank := 0 to |dense|
      invariant seen == dense[..rank]
      invariant forall x :: x in fused <==> x in dense[..rank]
      invariant forall x :: x in fused ==> x in dense && fused[x] == RankScore(dense, x)
    {
      var cid := dense[rank];
      IndexOfDistinct(dense, rank);
      if cid !in fused {
        seen := seen + [cid];
      }
      assert cid !in dense[..rank];
      fused := fused[cid := Get(fused, cid) + 1.0 / (RRF_K + 1 + rank) as real];
      assert dense[..rank + 1] == dense[..rank] + [cid];
    }
    assert dense[..|dense|] == dense;
  }

  ghost predicate BothScores(dense: seq<Id>, lexical: seq<Id>, upto: nat, seen: seq<Id>, fused: map<Id, real>)
    requires upto <= |lexical|
  {
    && seen == Appearance(dense, lexical[..upto])
    && (forall x :: x in fused <==> x in dense || x in lexical[..upto])
    && forall x :: x in fused ==>
         fused[x] == RankScore(dense, x) + if x in lexical[..upto] then RankScore(lexical, x) else 0.0
  }

  /** One more lexical hit: it joins the table, or adds to the score it already has. */
  method AddLexicalHit(dense: seq<Id>, lexical: seq<Id>, rank: nat, seen: seq<Id>, fused: map<Id, real>)
    returns (seen': seq<Id>, fused': map<Id, real>)
    requires Distinct(dense) && Distinct(lexical) && rank < |lexical|
    requires BothScores(dense, lexical, rank, seen, fused)
    ensures BothScores(dense, lexical, rank + 1, seen', fused')
  {
    hide *;
    var cid := lexical[rank];
    LexicalScore(dense, lexical, rank, seen, fused);
    seen' := if cid in fused then seen else seen + [cid];
    fused' := fused[cid := Get(fused, cid) + 1.0 / (RRF_K + 1 + rank) as real];
    BothScoresStep(dense, lexical, rank, seen, fused, seen', fused');
  }

  lemma LexicalScore(dense: seq<Id>, lexical: seq<Id>, rank: nat, seen: seq<Id>, fused: map<Id, real>)
    requires Distinct(lexical) && rank < |lexical| && BothScores(dense, lexical, rank, seen, fused)
    ensures
      var cid := lexical[rank];
      && cid !in lexical[..rank]
      && Get(fused, cid) + 1.0 / (RRF_K + 1 + rank) as real == RankScore(dense, cid) + RankScore(lexical, cid)
  {
    hide IndexOf, Appearance;
    IndexOfDistinct(lexical, rank);
  }

  lemma AppearanceStep(dense: seq<Id>, lexical: seq<Id>, rank: nat)
    requires Distinct(dense) && rank < |lexical|
    ensures
      var before := Appearance(dense, lexical[..rank]);
      Appearance(dense, lexical[..rank + 1])
      == if lexical[rank] in dense || lexical[rank] in lexical[..rank] then before else before + [lexical[rank]]
  {
    var more := lexical[..rank + 1];
    assert more != [] && more[..|more| - 1] == lexical[..rank] && more[|more| - 1] == lexical[rank];
    AppearanceIsUnion(dense, lexical[..rank]);
  }

  lemma BothScoresStep(dense: seq<Id>, lexical: seq<Id>, rank: nat, seen: seq<Id>, fused: map<Id, real>, seen': seq<Id>, fused': map<Id, real>)
    requires Distinct(dense) && rank < |lexical| && BothScores(dense, lexical, rank, seen, fused)
    requires lexical[rank] !in lexical[..rank]
    requires
      var cid := lexical[rank];
      && seen' == (if cid in fused then seen else seen + [cid])
      && fused' == fused[cid := RankScore(dense, cid) + RankScore(lexical, cid)]
    ensures BothScores(dense, lexical, rank + 1, seen', fused')
  {
    hide RankScore, Appearance;
    assert lexical[..rank + 1] == lexical[..rank] + [lexical[rank]];
    AppearanceStep(dense, lexical, rank);
  }

  /** Adds each channel's reciprocal ranks into one score table and keeps the best. */
  method Fuse(dense: seq<Id>, lexical: seq<Id>, topK: nat) returns (result: seq<Id>)
    requires Distinct(dense) && Distinct(lexical)
    ensures TopOf(Union(dense, lexical), FusedOrder(dense, lexical), topK, result)
  {
    var seen, fused := AddDense(dense);
    for rank := 0 to |lexical|
      invariant BothScores(dense, lexical, rank, seen, fused)
    {
      seen, fused := AddLexicalHit(dense, lexical, rank, seen, fused);
    }
    assert lexical[..|lexical|] == lexical;
    AppearanceIsUnion(dense, lexical);
    var ordered := SortDown(seen, fused);
    OrderedIsTop(dense, lexical, fused, ordered, topK);
    result := ordered[..if topK <= |ordered| then topK else |ordered|];
  }

  lemma DistinctSize(list: seq<Id>)
    requires Distinct(list)
    ensures |set x | x in list| == |list|
  {
    if list != [] {
      var rest := list[1..];
      DistinctSize(rest);
      assert (set x | x in list) == (set x | x in rest) + {list[0]};
      assert list[0] !in rest;
    }
  }

  lemma SortedIsDistinct(list: seq<Id>, ids: seq<Id>, score: map<Id, real>)
    requires SortedDown(list, ids, score)
    ensures Distinct(list)
  {
    forall i, j | 0 <= i < j < |list| ensures list[i] != list[j] {
      assert Ahead(ids, score, list[i], list[j]);
    }
  }

  lemma PrefixIsTop(s: set<Id>, less: (Id, Id) -> bool, ordered: seq<Id>, n: nat)
    requires s == (set x | x in ordered) && Distinct(ordered)
    requires forall i, j :: 0 <= i < j < |ordered| ==> less(ordered[i], ordered[j])
    ensures TopOf(s, less, n, ordered[..if n <= |ordered| then n else |ordered|])
  {
    DistinctSize(ordered);
    var cut := if n <= |ordered| then n else |ordered|;
    var list := ordered[..cut];
    assert forall k :: 0 <= k < cut ==> ordered[k] == list[k];
    forall x, y | x in s && x !in list && y in list ensures less(y, x) {
      var i :| 0 <= i < |ordered| && ordered[i] == x;
      var j :| 0 <= j < cut && list[j] == y;
      assert less(ordered[j], ordered[i]);
    }
  }

  lemma OrderedIsTop(dense: seq<Id>, lexical: seq<Id>, fused: map<Id, real>, ordered: seq<Id>, topK: nat)
    requires Distinct(dense)
    requires forall x :: x in fused ==> fused[x] == FusedScore(dense, lexical, x)
    requires SortedDown(ordered, Appearance(dense, lexical), fused)
    requires forall x :: x in ordered <==> x in Appearance(dense, lexical)
    ensures TopOf(Union(dense, lexical), FusedOrder(dense, lexical), topK, ordered[..if topK <= |ordered| then topK else |ordered|])
  {
    AppearanceIsUnion(dense, lexical);
    SortedIsDistinct(ordered, Appearance(dense, lexical), fused);
    forall i, j | 0 <= i < j < |ordered| ensures FusedOrder(dense, lexical)(ordered[i], ordered[j]) {
      assert Ahead(Appearance(dense, lexical), fused, ordered[i], ordered[j]);
    }
    PrefixIsTop(Union(dense, lexical), FusedOrder(dense, lexical), ordered, topK);
  }

  // ---------------------------------------------------------------- the search

  /** The filter applied again in Python to the fetched rows. */
  function Recheck(table: map<Id, Candidate>, access: AccessFilter, list: seq<Id>): seq<Id>
    decreases |list|
  {
    if list == [] then []
    else
      var kept := Recheck(table, access, list[..|list| - 1]);
      var last := list[|list| - 1];
      if last in table && Admits(access, table[last].row.payload) then kept + [last] else kept
  }

  lemma {:induction false} RecheckKeeps(table: map<Id, Candidate>, access: AccessFilter, list: seq<Id>)
    ensures forall x :: x in Recheck(table, access, list) <==> x in list && x in table && Admits(access, table[x].row.payload)
    ensures Distinct(list) ==> Distinct(Recheck(table, access, list))
    ensures (forall x :: x in list ==> x in table && Admits(access, table[x].row.payload)) ==> Recheck(table, access, list) == list
    decreases |list|
  {
    if list != [] {
      RecheckKeeps(table, access, list[..|list| - 1]);
      assert list == list[..|list| - 1] + [list[|list| - 1]];
    }
  }

  lemma TopDistinct(s: set<Id>, less: (Id, Id) -> bool, n: nat, list: seq<Id>)
    requires TopOf(s, less, n, list) && StrictTotal(s, less)
    ensures Distinct(list)
  {
    forall i, j | 0 <= i < j < |list| ensures list[i] != list[j] {
      assert less(list[i], list[j]) && list[i] in list;
    }
  }

  /** What a search returns, given the two candidate lists. */
  ghost predicate Answers(table: map<Id, Candidate>, q: Query, dense: seq<Id>, lexical: seq<Id>, hits: seq<Id>) {
    var d, l := Recheck(table, q.access, dense), Recheck(table, q.access, lexical);
    if q.hasText then TopOf(Union(d, l), FusedOrder(d, l), q.topK, hits)
    else hits == d[..if q.topK <= |d| then q.topK else |d|]
  }

  ghost predicate SearchResult(table: map<Id, Candidate>, q: Query, hits: seq<Id>) {
    exists dense, lexical :: DenseResult(table, q, dense) && LexicalResult(table, q, lexical) && Answers(table, q, dense, lexical, hits)
  }

  /** The lists are what the database returns for the two queries; None stands for an error, after which the search goes on
      with the dense hits alone. */
  method Search(table: map<Id, Candidate>, q: Query, dense: seq<Id>, lexical: Option<seq<Id>>) returns (hits: seq<Id>)
    requires DenseResult(table, q, dense)
    requires lexical.None? <==> q.hasText && q.lexicalFails
    requires lexical.Some? ==> LexicalResult(table, q, lexical.value)
    ensures SearchResult(table, q, hits)
  {
    var rows: seq<Id> := [];
    if q.hasText && lexical.Some? {
      rows := lexical.value;
    }
    assert LexicalResult(table, q, rows) by { LexicalRows(table, q, lexical, rows); }
    var d := Recheck(table, q.access, dense);
    var l := Recheck(table, q.access, rows);
    DenseOrderTotal(Visible(table, q));
    LexicalOrderTotal(Visible(table, q));
    TopDistinct(Visible(table, q).Keys, DenseOrder(Visible(table, q)), PoolSize(q), dense);
    TopDistinct(Matching(Visible(table, q)), LexicalOrder(Visible(table, q)), LexicalSize(q), rows);
    RecheckKeeps(table, q.access, dense);
    RecheckKeeps(table, q.access, rows);
    if !q.hasText {
      hits := d[..if q.topK <= |d| then q.topK else |d|];
    } else {
      hits := Fuse(d, l, q.topK);
    }
    assert Answers(table, q, dense, rows, hits);
  }

  lemma LexicalRows(table: map<Id, Candidate>, q: Query, lexical: Option<seq<Id>>, rows: seq<Id>)
    requires lexical.None? <==> q.hasText && q.lexicalFails
    requires lexical.Some? ==> LexicalResult(table, q, lexical.value)
    requires rows == if q.hasText && lexical.Some? then lexical.value else []
    ensures LexicalResult(table, q, rows)
  {
    hide Visible, Matching, LexicalOrder, PoolSize;
  }

  ghost predicate ConsistentTable(table: map<Id, Candidate>) {
    forall c :: c in table ==> Consistent(table[c].row)
  }

  lemma RecheckRedundant(table: map<Id, Candidate>, q: Query, list: seq<Id>)
    requires ConsistentTable(table) && (q.access.role == Admin || q.access.userId != "")
    requires forall x :: x in list ==> x in Visible(table, q)
    ensures Recheck(table, q.access, list) == list
  {
    forall x | x in list ensures x in table && Admits(q.access, table[x].row.payload) {
      PushdownIsAccessRule(q.access, table[x].row);
    }
    RecheckKeeps(table, q.access, list);
  }

  lemma ListsUnique(a: map<Id, Candidate>, b: map<Id, Candidate>, q: Query, dense: seq<Id>, dense': seq<Id>, lexical: seq<Id>, lexical': seq<Id>)
    requires Visible(a, q) == Visible(b, q)
    requires DenseResult(a, q, dense) && DenseResult(b, q, dense') && LexicalResult(a, q, lexical) && LexicalResult(b, q, lexical')
    ensures dense == dense' && lexical == lexical'
  {
    DenseOrderTotal(Visible(a, q));
    LexicalOrderTotal(Visible(a, q));
    TopUnique(Visible(a, q).Keys, DenseOrder(Visible(a, q)), PoolSize(q), dense, dense');
    TopUnique(Matching(Visible(a, q)), LexicalOrder(Visible(a, q)), LexicalSize(q), lexical, lexical');
  }

  /** Main theorem: the result depends only on the rows the caller can see. Adding, removing or changing any
      other rows changes nothing, neither which hits come back nor their order. */
  lemma SearchDependsOnlyOnVisibleRows(a: map<Id, Candidate>, b: map<Id, Candidate>, q: Query, hits: seq<Id>, hits': seq<Id>)
    requires ConsistentTable(a) && ConsistentTable(b) && (q.access.role == Admin || q.access.userId != "")
    requires Visible(a, q) == Visible(b, q)
    requires SearchResult(a, q, hits) && SearchResult(b, q, hits')
    ensures hits == hits'
  {
    var dense, lexical :| DenseResult(a, q, dense) && LexicalResult(a, q, lexical) && Answers(a, q, dense, lexical, hits);
    var dense', lexical' :| DenseResult(b, q, dense') && LexicalResult(b, q, lexical') && Answers(b, q, dense', lexical', hits');
    ListsUnique(a, b, q, dense, dense', lexical, lexical');
    RecheckRedundant(a, q, dense);
    RecheckRedundant(a, q, lexical);
    RecheckRedundant(b, q, dense);
    RecheckRedundant(b, q, lexical);
    if q.hasText {
      DenseOrderTotal(Visible(a, q));
      TopDistinct(Visible(a, q).Keys, DenseOrder(Visible(a, q)), PoolSize(q), dense);
      FusedOrderTotal(dense, lexical);
      TopUnique(Union(dense, lexical), FusedOrder(dense, lexical), q.topK, hits, hits');
    }
  }

  lemma VisibleAdmitted(table: map<Id, Candidate>, q: Query, x: Id)
    requires ConsistentTable(table) && (q.access.role == Admin || q.access.userId != "") && x in Visible(table, q)
    ensures Admits(q.access, table[x].row.payload)
  {
    PushdownIsAccessRule(q.access, table[x].row);
  }

  /** Every hit is a distinct row that the caller may see, and there are never more than asked for. */
  lemma HitsAreVisible(table: map<Id, Candidate>, q: Query, hits: seq<Id>)
    requires ConsistentTable(table) && (q.access.role == Admin || q.access.userId != "")
    requires SearchResult(table, q, hits)
    ensures |hits| <= q.topK && Distinct(hits)
    ensures forall x :: x in hits ==> x in Visible(table, q) && Admits(q.access, table[x].row.payload)
  {
    hide StrictTotal, DenseOrder, LexicalOrder, FusedOrder, Recheck, ConsistentTable;
    var dense, lexical :| DenseResult(table, q, dense) && LexicalResult(table, q, lexical) && Answers(table, q, dense, lexical, hits);
    RecheckRedundant(table, q, dense);
    RecheckRedundant(table, q, lexical);
    DenseOrderTotal(Visible(table, q));
    TopDistinct(Visible(table, q).Keys, DenseOrder(Visible(table, q)), PoolSize(q), dense);
    FusedOrderTotal(dense, lexical);
    if q.hasText {
      TopDistinct(Union(dense, lexical), FusedOrder(dense, lexical), q.topK, hits);
    }
    forall x | x in hits ensures x in Visible(table, q) && Admits(q.access, table[x].row.payload) {
      assert x in dense || x in lexical;
      VisibleAdmitted(table, q, x);
    }
  }

  /** A visible row the caller does not get ranks behind every row it does get, in at least one full channel. */
  lemma MissedRowsRankBehind(table: map<Id, Candidate>, q: Query, dense: seq<Id>, x: Id, y: Id)
    requires DenseResult(table, q, dense) && x in Visible(table, q) && x !in dense && y in dense
    ensures table[y].distance < table[x].distance || (table[y].distance == table[x].distance && Before(y, x))
    ensures |dense| == PoolSize(q)
  {
    if PoolSize(q) > |Visible(table, q).Keys| {
      DenseOrderTotal(Visible(table, q));
      TopDistinct(Visible(table, q).Keys, DenseOrder(Visible(table, q)), PoolSize(q), dense);
      DistinctSize(dense);
      var listed := set c | c in dense;
      assert listed < Visible(table, q).Keys;
      ProperSubsetSize(listed, Visible(table, q).Keys);
      assert false;
    }
  }

  lemma ProperSubsetSize(a: set<Id>, b: set<Id>)
    requires a < b
    ensures |a| < |b|
  {
    assert b == a + (b - a);
    assert |b| == |a| + |b - a|;
    assert b - a != {};
  }

  /** Fused with nothing, a list keeps its order. */
  lemma FusedAlone(list: seq<Id>)
    requires Distinct(list)
    ensures forall i, j :: 0 <= i < j < |list| ==> FusedOrder(list, [])(list[i], list[j])
  {
    forall i, j | 0 <= i < j < |list| ensures FusedOrder(list, [])(list[i], list[j]) {
      hide IndexOf;
      IndexOfDistinct(list, i);
      IndexOfDistinct(list, j);
      LaterScoresLess(RRF_K + 1 + i, RRF_K + 1 + j);
    }
  }

  lemma LaterScoresLess(a: nat, b: nat)
    requires 0 < a < b
    ensures 1.0 / a as real > 1.0 / b as real
  {
    var x, y := a as real, b as real;
    assert 1.0 / x - 1.0 / y == (y - x) / (x * y);
  }

  /** When the lexical query fails, a search with text gives the nearest rows in the order of their distance, as one without
      text does. */
  lemma LexicalFailureKeepsDense(table: map<Id, Candidate>, q: Query, dense: seq<Id>, hits: seq<Id>)
    requires ConsistentTable(table) && (q.access.role == Admin || q.access.userId != "")
    requires q.hasText && q.lexicalFails && DenseResult(table, q, dense) && SearchResult(table, q, hits)
    ensures hits == dense[..if q.topK <= |dense| then q.topK else |dense|]
  {
    hide Visible, DenseOrder, FusedOrder, Matching, LexicalOrder, PoolSize, ConsistentTable, Appearance;
    var list, none :| DenseResult(table, q, list) && LexicalResult(table, q, none) && Answers(table, q, list, none, hits);
    DenseOrderTotal(Visible(table, q));
    TopUnique(Visible(table, q).Keys, DenseOrder(Visible(table, q)), PoolSize(q), dense, list);
    TopDistinct(Visible(table, q).Keys, DenseOrder(Visible(table, q)), PoolSize(q), dense);
    RecheckRedundant(table, q, dense);
    assert none == [] && Recheck(table, q.access, none) == [];
    FusedAlone(dense);
    FusedOrderTotal(dense, []);
    assert Union(dense, []) == set x | x in dense;
    PrefixIsTop(Union(dense, []), FusedOrder(dense, []), dense, q.topK);
    TopUnique(Union(dense, []), FusedOrder(dense, []), q.topK, hits, dense[..if q.topK <= |dense| then q.topK else |dense|]);
  }

  // ---------------------------------------------------------------- who sees what, column by column

  /** The rows a search of this caller may show: live, of the caller's tenant or global, and permitted. */
  predicate MayShow(q: Query, c: Candidate) {
    && !c.deleted
    && (c.tenantId == q.tenantId || c.row.scope == "global")
    && (q.access.documentIds.Some? ==> c.row.payload.documentId.Some? && c.row.payload.documentId.value in q.access.documentIds.value)
    && (|| q.access.role == Admin || c.row.payload.scope == Some("global") || c.row.payload.userId == Some(q.access.userId)
        || c.row.payload.visibility == Some("tenant")
        || (c.row.payload.visibility == Some("shared") && c.row.payload.aclUserIds.Some? && q.access.userId in c.row.payload.aclUserIds.value))
  }

  lemma VisibleMeans(table: map<Id, Candidate>, q: Query)
    requires ConsistentTable(table) && (q.access.role == Admin || q.access.userId != "")
    ensures forall x :: x in Visible(table, q) <==> x in table && MayShow(q, table[x])
    ensures forall x :: x in Visible(table, q) ==> Visible(table, q)[x] == table[x]
  {
    hide Pushdown, Consistent;
    forall x | x in table ensures Pushdown(q.access, table[x].row) == True <==> Admits(q.access, table[x].row.payload) {
      PushdownIsAccessRule(q.access, table[x].row);
    }
  }

  /** Every hit is a live row of the caller's own tenant or a global one, and the caller is permitted to read it. */
  lemma HitsMayBeShown(table: map<Id, Candidate>, q: Query, hits: seq<Id>)
    requires ConsistentTable(table) && (q.access.role == Admin || q.access.userId != "")
    requires SearchResult(table, q, hits)
    ensures |hits| <= q.topK && Distinct(hits) && forall x :: x in hits ==> x in table && MayShow(q, table[x])
  {
    hide SearchResult, ConsistentTable, MayShow, Visible;
    HitsAreVisible(table, q, hits);
    VisibleMeans(table, q);
  }

  lemma TopOfFew(s: set<Id>, less: (Id, Id) -> bool, n: nat, list: seq<Id>)
    requires TopOf(s, less, n, list) && StrictTotal(s, less) && |s| <= n
    ensures forall x :: x in s <==> x in list
  {
    TopDistinct(s, less, n, list);
    DistinctSize(list);
    var listed := set x | x in list;
    if listed != s {
      assert listed < s;
      ProperSubsetSize(listed, s);
    }
  }

  /** And nothing is withheld: when no more rows may be shown than were asked for, a search without text, or one whose lexical
      part fails, gives all of them. */
  lemma FewRowsAreAllHits(table: map<Id, Candidate>, q: Query, hits: seq<Id>)
    requires ConsistentTable(table) && (q.access.role == Admin || q.access.userId != "")
    requires SearchResult(table, q, hits) && (!q.hasText || q.lexicalFails)
    requires |set x | x in table && MayShow(q, table[x])| <= q.topK
    ensures forall x :: x in hits <==> x in table && MayShow(q, table[x])
  {
    hide StrictTotal, DenseOrder, LexicalOrder, FusedOrder, Recheck, ConsistentTable, MayShow, Visible, Matching, TopOf;
    VisibleMeans(table, q);
    var dense, lexical :| DenseResult(table, q, dense) && LexicalResult(table, q, lexical) && Answers(table, q, dense, lexical, hits);
    assert Visible(table, q).Keys == set x | x in table && MayShow(q, table[x]);
    DenseOrderTotal(Visible(table, q));
    TopOfFew(Visible(table, q).Keys, DenseOrder(Visible(table, q)), PoolSize(q), dense);
    RecheckRedundant(table, q, dense);
    if q.hasText {
      LexicalFailureKeepsDense(table, q, dense, hits);
    }
    assert |dense| <= q.topK by { TopIsShort(Visible(table, q).Keys, DenseOrder(Visible(table, q)), PoolSize(q), dense); }
    assert dense[..|dense|] == dense;
  }

  lemma TopIsShort(s: set<Id>, less: (Id, Id) -> bool, n: nat, list: seq<Id>)
    requires TopOf(s, less, n, list)
    ensures |list| <= |s|
  {
  }

  /** The independence theorem in terms of the rows themselves: two tables that agree on the rows that may be shown give the
      same hits in the same order, whatever else they hold. */
  lemma SearchDependsOnlyOnRowsItMayShow(a: map<Id, Candidate>, b: map<Id, Candidate>, q: Query, hits: seq<Id>, hits': seq<Id>)
    requires ConsistentTable(a) && ConsistentTable(b) && (q.access.role == Admin || q.access.userId != "")
    requires forall x :: (x in a && MayShow(q, a[x])) <==> (x in b && MayShow(q, b[x]))
    requires forall x :: x in a && MayShow(q, a[x]) ==> a[x] == b[x]
    requires SearchResult(a, q, hits) && SearchResult(b, q, hits')
    ensures hits == hits'
  {
    hide SearchResult, ConsistentTable, MayShow, Visible;
    VisibleMeans(a, q);
    VisibleMeans(b, q);
    assert Visible(a, q) == Visible(b, q);
    SearchDependsOnlyOnVisibleRows(a, b, q, hits, hits');
  }
}

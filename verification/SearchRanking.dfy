/** What a search gives, from the rows alone: how many candidates each channel has and in which order, what a rank is worth,
    and how the two lists are put together. */
module SearchRanking {
  import opened Access
  import opened HybridSearch
  import opened Prelude
  import opened PythonText

  // ---------------------------------------------------------------- the two channels

  /** How many rows a channel fetches: as many as were asked for, and with a text the most of that, its multiple and the
      least number of candidates. */
  function Fetched(q: Query): nat {
    if !q.hasText then q.topK
    else
      var multiple := q.topK * q.multiplier;
      if q.topK >= multiple && q.topK >= q.minCandidates then q.topK
      else if multiple >= q.minCandidates then multiple else q.minCandidates
  }

  /** The first n of the rows in an order, all of them if there are no more. */
  ghost predicate FirstOf(rows: set<Id>, n: nat, list: seq<Id>, before: (Id, Id) -> bool) {
    && |list| == (if |rows| < n then |rows| else n)
    && (forall i :: 0 <= i < |list| ==> list[i] in rows)
    && (forall i, j :: 0 <= i < j < |list| ==> list[i] != list[j] && before(list[i], list[j]))
    && (forall x, j :: x in rows && 0 <= j < |list| && (forall i :: 0 <= i < |list| ==> list[i] != x) ==> before(list[j], x))
  }

  predicate Nearer(table: map<Id, Candidate>, x: Id, y: Id) {
    && x in table && y in table
    && (table[x].distance < table[y].distance || (table[x].distance == table[y].distance && Before(x, y)))
  }

  predicate MatchesBetter(table: map<Id, Candidate>, x: Id, y: Id) {
    && x in table && y in table
    && (table[x].lexScore > table[y].lexScore || (table[x].lexScore == table[y].lexScore && Before(x, y)))
  }

  function Shown(table: map<Id, Candidate>, q: Query): set<Id> {
    set x | x in table && MayShow(q, table[x])
  }

  /** The nearest rows of those that may be shown. */
  ghost predicate Nearest(table: map<Id, Candidate>, q: Query, list: seq<Id>) {
    FirstOf(Shown(table, q), Fetched(q), list, (x, y) => Nearer(table, x, y))
  }

  /** Those that match the text best; none without a text, or when the query for it fails. */
  ghost predicate BestMatches(table: map<Id, Candidate>, q: Query, list: seq<Id>) {
    if !q.hasText || q.lexicalFails then list == []
    else FirstOf((set x | x in Shown(table, q) && table[x].matches), Fetched(q), list, (x, y) => MatchesBetter(table, x, y))
  }

  // ---------------------------------------------------------------- the two lists together

  /** The k-th of a list, counted from 1, is worth 1 / (60 + k). */
  function Share(list: seq<Id>, x: Id): real {
    if x in list then 1.0 / (61 + IndexOf(list, x)) as real else 0.0
  }

  function Worth(dense: seq<Id>, lexical: seq<Id>, x: Id): real {
    Share(dense, x) + Share(lexical, x)
  }

  /** Which of two comes first: those of the dense list in its order, then those that only the lexical list has in its order. */
  predicate Earlier(dense: seq<Id>, lexical: seq<Id>, x: Id, y: Id) {
    if x in dense then y in dense ==> IndexOf(dense, x) < IndexOf(dense, y)
    else y !in dense && x in lexical && y in lexical && IndexOf(lexical, x) < IndexOf(lexical, y)
  }

  predicate Better(dense: seq<Id>, lexical: seq<Id>, x: Id, y: Id) {
    || Worth(dense, lexical, x) > Worth(dense, lexical, y)
    || (Worth(dense, lexical, x) == Worth(dense, lexical, y) && Earlier(dense, lexical, x, y))
  }

  /** The hits: of a search without text the first of the nearest rows, else the best of both lists. */
  ghost predicate Ranked(q: Query, dense: seq<Id>, lexical: seq<Id>, hits: seq<Id>) {
    if !q.hasText then hits == dense
    else FirstOf((set x | x in dense) + (set x | x in lexical), q.topK, hits, (x, y) => Better(dense, lexical, x, y))
  }

  // ---------------------------------------------------------------- proofs

  lemma TopIsFirst(s: set<Id>, less: (Id, Id) -> bool, n: nat, list: seq<Id>, before: (Id, Id) -> bool)
    requires TopOf(s, less, n, list) && StrictTotal(s, less)
    requires forall x, y :: x in s && y in s && less(x, y) ==> before(x, y)
    ensures FirstOf(s, n, list, before)
  {
    TopDistinct(s, less, n, list);
    forall x, j | x in s && 0 <= j < |list| && (forall i :: 0 <= i < |list| ==> list[i] != x) ensures before(list[j], x) {
      assert list[j] in list && x !in list;
    }
  }

  lemma PoolIsFetched(q: Query)
    ensures PoolSize(q) == Fetched(q)
    ensures LexicalSize(q) == if q.hasText && !q.lexicalFails then Fetched(q) else 0
  {
  }

  lemma DenseIsNearest(table: map<Id, Candidate>, q: Query, dense: seq<Id>)
    requires ConsistentTable(table) && (q.access.role == Admin || q.access.userId != "")
    requires DenseResult(table, q, dense)
    ensures Nearest(table, q, dense)
  {
    hide ConsistentTable, Visible, MayShow, TopOf, FirstOf, StrictTotal, PoolSize, Fetched, Before;
    PoolIsFetched(q);
    VisibleMeans(table, q);
    DenseOrderTotal(Visible(table, q));
    assert Visible(table, q).Keys == Shown(table, q);
    TopIsFirst(Shown(table, q), DenseOrder(Visible(table, q)), PoolSize(q), dense, (x, y) => Nearer(table, x, y));
  }

  lemma LexicalIsBest(table: map<Id, Candidate>, q: Query, lexical: seq<Id>)
    requires ConsistentTable(table) && (q.access.role == Admin || q.access.userId != "")
    requires LexicalResult(table, q, lexical)
    ensures BestMatches(table, q, lexical)
  {
    hide ConsistentTable, Visible, MayShow, FirstOf, StrictTotal, PoolSize, Fetched, Before, LexicalSize;
    PoolIsFetched(q);
    VisibleMeans(table, q);
    LexicalOrderTotal(Visible(table, q));
    assert Matching(Visible(table, q)) == set x | x in Shown(table, q) && table[x].matches;
    TopIsFirst(Matching(Visible(table, q)), LexicalOrder(Visible(table, q)), LexicalSize(q), lexical, (x, y) => MatchesBetter(table, x, y));
  }

  lemma IndexInFront(front: seq<Id>, last: Id, x: Id)
    requires x in front
    ensures x in front + [last] && IndexOf(front + [last], x) == IndexOf(front, x)
  {
    assert (front + [last])[IndexOf(front, x)] == x;
  }

  lemma IndexOfLast(front: seq<Id>, last: Id)
    requires last !in front
    ensures last in front + [last] && IndexOf(front + [last], last) == |front|
  {
    assert (front + [last])[|front|] == last;
  }

  /** Order of first appearance, by induction on the lexical list. */
  lemma {:induction false} AppearanceIsEarlier(dense: seq<Id>, lexical: seq<Id>, x: Id, y: Id)
    requires Distinct(dense) && Distinct(lexical) && x != y
    requires x in Appearance(dense, lexical) && y in Appearance(dense, lexical)
    ensures IndexOf(Appearance(dense, lexical), x) < IndexOf(Appearance(dense, lexical), y) <==> Earlier(dense, lexical, x, y)
    decreases |lexical|
  {
    if lexical != [] {
      var front, last := lexical[..|lexical| - 1], lexical[|lexical| - 1];
      assert lexical == front + [last];
      var before := Appearance(dense, front);
      AppearanceIsUnion(dense, front);
      assert last !in front;
      if last in before || (x != last && y != last) {
        AppearanceIsEarlier(dense, front, x, y);
        EarlierInFront(dense, front, last, x, y);
        if last !in before {
          IndexInFront(before, last, x);
          IndexInFront(before, last, y);
        }
      } else {
        IndexOfLast(before, last);
        IndexOfLast(front, last);
        var other := if x == last then y else x;
        IndexInFront(before, last, other);
        if other in front {
          IndexInFront(front, last, other);
        }
      }
    }
  }

  /** An element at the end of the lexical list does not change the order of two others, or of those of the dense list. */
  lemma EarlierInFront(dense: seq<Id>, front: seq<Id>, last: Id, x: Id, y: Id)
    requires (x in dense || x in front) && (y in dense || y in front)
    ensures Earlier(dense, front + [last], x, y) <==> Earlier(dense, front, x, y)
  {
    if x in front {
      IndexInFront(front, last, x);
    }
    if y in front {
      IndexInFront(front, last, y);
    }
  }

  lemma SameWorth(dense: seq<Id>, lexical: seq<Id>, x: Id)
    ensures FusedScore(dense, lexical, x) == Worth(dense, lexical, x)
  {
    hide IndexOf;
    assert RRF_K + 1 == 61;
  }

  lemma FusedIsBetter(dense: seq<Id>, lexical: seq<Id>, x: Id, y: Id)
    requires Distinct(dense) && Distinct(lexical) && FusedOrder(dense, lexical)(x, y)
    ensures Better(dense, lexical, x, y)
  {
    hide Appearance, Earlier, FusedScore, Worth;
    SameWorth(dense, lexical, x);
    SameWorth(dense, lexical, y);
    if x != y {
      AppearanceIsEarlier(dense, lexical, x, y);
    }
  }

  /** Every search result is the ranking of the rows that may be shown: each of the two channels takes its first rows, and the
      hits are the first of both by worth, equal ones in the order in which they first appear. */
  lemma ResultsAreRanked(table: map<Id, Candidate>, q: Query, hits: seq<Id>) returns (dense: seq<Id>, lexical: seq<Id>)
    requires ConsistentTable(table) && (q.access.role == Admin || q.access.userId != "")
    requires SearchResult(table, q, hits)
    ensures Nearest(table, q, dense) && BestMatches(table, q, lexical) && Ranked(q, dense, lexical, hits)
  {
    hide ConsistentTable, Visible, StrictTotal, PoolSize, Fetched, DenseOrder, LexicalOrder, LexicalSize, FusedOrder, Better,
         Recheck, Nearest, BestMatches, FirstOf;
    dense, lexical :| DenseResult(table, q, dense) && LexicalResult(table, q, lexical) && Answers(table, q, dense, lexical, hits);
    DenseIsNearest(table, q, dense);
    LexicalIsBest(table, q, lexical);
    RecheckRedundant(table, q, dense);
    RecheckRedundant(table, q, lexical);
    DenseOrderTotal(Visible(table, q));
    LexicalOrderTotal(Visible(table, q));
    TopDistinct(Visible(table, q).Keys, DenseOrder(Visible(table, q)), PoolSize(q), dense);
    TopDistinct(Matching(Visible(table, q)), LexicalOrder(Visible(table, q)), LexicalSize(q), lexical);
    if q.hasText {
      FusedOrderTotal(dense, lexical);
      forall x, y | FusedOrder(dense, lexical)(x, y) ensures Better(dense, lexical, x, y) {
        FusedIsBetter(dense, lexical, x, y);
      }
      TopIsFirst(Union(dense, lexical), FusedOrder(dense, lexical), q.topK, hits, (x, y) => Better(dense, lexical, x, y));
    } else {
      assert PoolSize(q) == q.topK by { NoTextNoPool(q); }
      assert |dense| <= q.topK;
      assert dense[..|dense|] == dense;
    }
  }

  lemma NoTextNoPool(q: Query)
    requires !q.hasText
    ensures PoolSize(q) == q.topK
  {
  }

  /** The SQL connectives, on all three truth values. */
  lemma TruthTables()
    ensures forall a: Truth, b: Truth ::
              && (Or(a, b) == True <==> a == True || b == True)
              && (Or(a, b) == False <==> a == False && b == False)
              && (And(a, b) == True <==> a == True && b == True)
              && (And(a, b) == False <==> a == False || b == False)
  {
  }
}

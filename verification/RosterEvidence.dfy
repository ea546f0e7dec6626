/** What becomes of the passages that were read: tables that list what a question asks for go first, without the rows that
    an earlier one of them has. */
module RosterEvidence {
  import opened Prelude
  import opened PythonText
  import opened TableChunks
  import opened TableText

  /** The document, generation and section of a passage. */
  datatype Source = Source(documentId: string, generationId: Option<string>, section: Option<string>)

  datatype Passage = Passage(id: string, text: string, source: Source)

  /** What is asked of lines: the regular expression for the rule under a header, and whether the question asks for a
      collection that a column of the header names. */
  datatype Reader = Reader(isRule: string -> bool, lists: string -> bool)
  {
    /** No rule is empty. */
    predicate Valid() {
      !isRule("")
    }
  }

  // ---------------------------------------------------------------- rosters

  /** matching_roster */
  predicate IsRoster(text: string, r: Reader) {
    var lines := StripAll(NonBlank(SplitLines(text)));
    var rule := FirstRule(lines, r.isRule);
    && 1 <= rule < |lines| && |lines| - rule >= 3
    && r.lists(lines[rule - 1])
  }

  /** The first rule of the lines has a line above it that the question asks for, and at least two below it. */
  predicate RosterAt(lines: seq<string>, k: nat, r: Reader) {
    && 0 < k && k + 2 < |lines| && r.isRule(lines[k]) && (forall j :: 0 <= j < k ==> !r.isRule(lines[j]))
    && r.lists(lines[k - 1])
  }

  /** Exactly which texts are rosters, blank lines aside. */
  lemma IsRosterMeans(text: string, r: Reader)
    ensures IsRoster(text, r) <==> exists k: nat :: RosterAt(StripAll(NonBlank(SplitLines(text))), k, r)
  {
    hide SplitLines, NonBlank, Strip, FirstRule;
    var lines := StripAll(NonBlank(SplitLines(text)));
    var rule := FirstRule(lines, r.isRule);
    if IsRoster(text, r) {
      assert RosterAt(lines, rule, r);
    }
    if k: nat :| RosterAt(lines, k, r) {
      assert rule <= k;
      assert rule == k;
    }
  }

  /** The line of the rule, blank lines counted. */
  function RuleAt(text: string, r: Reader): (k: nat)
    ensures k <= |SplitLines(text)|
  {
    FirstRule(StripAll(SplitLines(text)), r.isRule)
  }

  lemma {:induction false} RuleAmongLines(lines: seq<string>, isRule: string -> bool)
    requires !isRule("")
    ensures
      var bare, all := StripAll(NonBlank(lines)), StripAll(lines);
      && (FirstRule(bare, isRule) < |bare| <==> FirstRule(all, isRule) < |all|)
      && FirstRule(bare, isRule) <= FirstRule(all, isRule)
  {
    hide FirstRule, NonBlank, Strip;
    if lines != [] {
      var first, rest := lines[0], lines[1..];
      RuleAmongLines(rest, isRule);
      assert lines == [first] + rest;
      assert StripAll(lines) == [Strip(first)] + StripAll(rest);
      FirstRuleStep(Strip(first), StripAll(rest), isRule);
      NonBlankStep(first, rest);
      if Strip(first) != "" {
        assert StripAll([first] + NonBlank(rest)) == [Strip(first)] + StripAll(NonBlank(rest));
        FirstRuleStep(Strip(first), StripAll(NonBlank(rest)), isRule);
      }
    } else {
      assert NonBlank([]) == [] by { NothingBlank(); }
    }
  }

  lemma FirstRuleStep(line: string, rest: seq<string>, isRule: string -> bool)
    ensures FirstRule([line] + rest, isRule) == if isRule(line) then 0 else 1 + FirstRule(rest, isRule)
  {
    assert ([line] + rest)[1..] == rest;
  }

  lemma NonBlankStep(line: string, rest: seq<string>)
    ensures NonBlank([line] + rest) == if Strip(line) == "" then NonBlank(rest) else [line] + NonBlank(rest)
  {
    hide Strip;
    assert ([line] + rest)[1..] == rest;
  }

  lemma NothingBlank()
    ensures NonBlank([]) == []
  {
  }

  /** A roster has a rule with a line above it. */
  lemma RosterHasHeader(text: string, r: Reader)
    requires r.Valid() && IsRoster(text, r)
    ensures 0 < RuleAt(text, r) < |SplitLines(text)|
  {
    RuleAmongLines(SplitLines(text), r.isRule);
  }

  function Head(text: string, r: Reader): seq<string> {
    var k := RuleAt(text, r);
    if k < |SplitLines(text)| then SplitLines(text)[..k + 1] else SplitLines(text)
  }

  function Rows(text: string, r: Reader): seq<string> {
    SplitLines(text)[|Head(text, r)|..]
  }

  /** Rosters of one document, generation and section share their rows when the lines above their rules agree. */
  datatype Key = Key(source: Source, header: string)

  function KeyOf(p: Passage, r: Reader): Key {
    var k := RuleAt(p.text, r);
    Key(p.source, if 0 < k <= |SplitLines(p.text)| then Strip(SplitLines(p.text)[k - 1]) else "")
  }

  function Contents(rows: seq<string>): set<string> {
    set k | 0 <= k < |rows| && Strip(rows[k]) != "" :: Strip(rows[k])
  }

  /** The rows of a passage, blank lines aside. */
  function RowsOf(p: Passage, r: Reader): set<string> {
    Contents(Rows(p.text, r))
  }

  // ---------------------------------------------------------------- what is left of a roster

  /** The passage has the row under this header. */
  predicate Holds(p: Passage, key: Key, row: string, r: Reader) {
    KeyOf(p, r) == key && row in RowsOf(p, r)
  }

  /** One of the rosters before the i-th has the row under this header. */
  predicate HeldBefore(rosters: seq<Passage>, i: nat, key: Key, row: string, r: Reader)
    requires i <= |rosters|
  {
    exists j :: 0 <= j < i && Holds(rosters[j], key, row, r)
  }

  /** An earlier roster with the same header has the row. */
  predicate Repeated(rosters: seq<Passage>, i: nat, row: string, r: Reader)
    requires i < |rosters|
  {
    HeldBefore(rosters, i, KeyOf(rosters[i], r), row, r)
  }

  /** The rows that no earlier roster has, and blank lines, in order. */
  function FreshRows(rosters: seq<Passage>, i: nat, rows: seq<string>, r: Reader): seq<string>
    requires i < |rosters|
  {
    if rows == [] then []
    else (if Repeated(rosters, i, Strip(rows[0]), r) then [] else [rows[0]]) + FreshRows(rosters, i, rows[1..], r)
  }

  function KeptRows(rosters: seq<Passage>, i: nat, r: Reader): seq<string>
    requires i < |rosters|
  {
    FreshRows(rosters, i, Rows(rosters[i].text, r), r)
  }

  /** A roster as it is shown: its header, and the rows of its own. */
  function Trimmed(rosters: seq<Passage>, i: nat, r: Reader): Passage
    requires i < |rosters|
  {
    rosters[i].(text := StrJoin("\n", Head(rosters[i].text, r) + KeptRows(rosters, i, r)))
  }

  function AllTrimmed(rosters: seq<Passage>, r: Reader): (shown: seq<Passage>)
    ensures |shown| == |rosters| && forall i :: 0 <= i < |rosters| ==> shown[i] == Trimmed(rosters, i, r)
  {
    seq(|rosters|, i requires 0 <= i < |rosters| => Trimmed(rosters, i, r))
  }

  /** What the loop knows of the rosters before the i-th. */
  ghost predicate Seen(seen: map<Key, set<string>>, rosters: seq<Passage>, i: nat, r: Reader)
    requires i <= |rosters|
  {
    forall key: Key, row: string :: row in SeenRows(seen, key) <==> HeldBefore(rosters, i, key, row, r)
  }

  /** seen_rows.setdefault(key, set()) */
  function SeenRows(seen: map<Key, set<string>>, key: Key): set<string> {
    if key in seen then seen[key] else {}
  }

  /** The list comprehension of the loop. */
  function Unseen(rows: seq<string>, seen: set<string>): seq<string> {
    if rows == [] then []
    else (if Strip(rows[0]) in seen then [] else [rows[0]]) + Unseen(rows[1..], seen)
  }

  lemma {:induction false} UnseenIsFresh(rosters: seq<Passage>, i: nat, rows: seq<string>, seen: set<string>, r: Reader)
    requires i < |rosters| && forall row: string :: row in seen <==> Repeated(rosters, i, row, r)
    ensures Unseen(rows, seen) == FreshRows(rosters, i, rows, r)
  {
    hide Repeated;
    if rows != [] {
      UnseenIsFresh(rosters, i, rows[1..], seen, r);
    }
  }

  lemma SeenMore(seen: map<Key, set<string>>, rosters: seq<Passage>, i: nat, r: Reader)
    requires i < |rosters| && Seen(seen, rosters, i, r)
    ensures
      var key := KeyOf(rosters[i], r);
      Seen(seen[key := SeenRows(seen, key) + RowsOf(rosters[i], r)], rosters, i + 1, r)
  {
    hide KeyOf, RowsOf, HeldBefore;
    var mine := KeyOf(rosters[i], r);
    var more := seen[mine := SeenRows(seen, mine) + RowsOf(rosters[i], r)];
    forall key: Key, row: string ensures row in SeenRows(more, key) <==> HeldBefore(rosters, i + 1, key, row, r) {
      HeldBeforeNext(rosters, i, key, row, r);
      assert row in SeenRows(seen, key) <==> HeldBefore(rosters, i, key, row, r);
    }
  }

  lemma HeldBeforeNext(rosters: seq<Passage>, i: nat, key: Key, row: string, r: Reader)
    requires i < |rosters|
    ensures HeldBefore(rosters, i + 1, key, row, r) <==> HeldBefore(rosters, i, key, row, r) || Holds(rosters[i], key, row, r)
  {
    hide Holds;
  }

  /** The loop over the rosters, which remembers the rows of each header. */
  method TrimRosters(rosters: seq<Passage>, r: Reader) returns (shown: seq<Passage>)
    ensures shown == AllTrimmed(rosters, r)
  {
    shown := [];
    var seen: map<Key, set<string>> := map[];
    for i := 0 to |rosters|
      invariant shown == AllTrimmed(rosters, r)[..i]
      invariant Seen(seen, rosters, i, r)
    {
      hide *;
      var p, key := rosters[i], KeyOf(rosters[i], r);
      var before := SeenRows(seen, key);
      SeenIsRepeated(seen, rosters, i, r);
      UnseenIsFresh(rosters, i, Rows(p.text, r), before, r);
      SeenMore(seen, rosters, i, r);
      shown := shown + [p.(text := StrJoin("\n", Head(p.text, r) + Unseen(Rows(p.text, r), before)))];
      TrimmedNext(rosters, i, r);
      seen := seen[key := before + RowsOf(p, r)];
    }
    assert AllTrimmed(rosters, r)[..|rosters|] == AllTrimmed(rosters, r);
  }

  lemma SeenIsRepeated(seen: map<Key, set<string>>, rosters: seq<Passage>, i: nat, r: Reader)
    requires i < |rosters| && Seen(seen, rosters, i, r)
    ensures forall row: string :: row in SeenRows(seen, KeyOf(rosters[i], r)) <==> Repeated(rosters, i, row, r)
  {
    hide KeyOf, HeldBefore;
  }

  lemma TrimmedNext(rosters: seq<Passage>, i: nat, r: Reader)
    requires i < |rosters|
    ensures |AllTrimmed(rosters, r)| == |rosters|
    ensures AllTrimmed(rosters, r)[..i + 1] == AllTrimmed(rosters, r)[..i]
         + [rosters[i].(text := StrJoin("\n", Head(rosters[i].text, r)
                                              + FreshRows(rosters, i, Rows(rosters[i].text, r), r)))]
  {
    hide Head, FreshRows, StrJoin, Rows;
  }

  // ---------------------------------------------------------------- what trimming keeps

  /** a is what is left of b when some elements are taken out. */
  ghost predicate Among<T(!new)>(a: seq<T>, b: seq<T>)
    decreases |b|
  {
    if b == [] then a == []
    else Among(a, b[1..]) || (a != [] && a[0] == b[0] && Among(a[1..], b[1..]))
  }

  lemma {:induction false} FreshAmong(rosters: seq<Passage>, i: nat, rows: seq<string>, r: Reader)
    requires i < |rosters|
    ensures Among(FreshRows(rosters, i, rows, r), rows)
  {
    hide Repeated;
    if rows != [] {
      FreshAmong(rosters, i, rows[1..], r);
      var rest := FreshRows(rosters, i, rows[1..], r);
      assert ([rows[0]] + rest)[1..] == rest && [] + rest == rest;
    }
  }

  lemma {:induction false} FreshContents(rosters: seq<Passage>, i: nat, rows: seq<string>, r: Reader)
    requires i < |rosters|
    ensures forall row: string ::
              row in Contents(FreshRows(rosters, i, rows, r)) <==> row in Contents(rows) && !Repeated(rosters, i, row, r)
  {
    hide Repeated, Contents;
    if rows != [] {
      var first, rest := rows[0], rows[1..];
      FreshContents(rosters, i, rest, r);
      assert rows == [first] + rest;
      ContentsFirst(first, rest);
      ContentsFirst(first, FreshRows(rosters, i, rest, r));
      assert [] + FreshRows(rosters, i, rest, r) == FreshRows(rosters, i, rest, r);
    } else {
      assert Contents([]) == {} by { NoContents(); }
    }
  }

  lemma NoContents()
    ensures Contents([]) == {}
  {
  }

  lemma ContentsFirst(first: string, rest: seq<string>)
    ensures Contents([first] + rest) == (if Strip(first) == "" then {} else {Strip(first)}) + Contents(rest)
  {
    hide Strip;
    var all := [first] + rest;
    forall x | x in Contents(rest) ensures x in Contents(all) {
      var k :| 0 <= k < |rest| && Strip(rest[k]) != "" && Strip(rest[k]) == x;
      assert all[k + 1] == rest[k];
    }
    forall x | x in Contents(all) ensures x in Contents(rest) || x == Strip(first) != "" {
      var k :| 0 <= k < |all| && Strip(all[k]) != "" && Strip(all[k]) == x;
      if k > 0 {
        assert x == Strip(rest[k - 1]);
      }
    }
    if Strip(first) != "" {
      assert all[0] == first;
    }
  }

  /** A row that a roster is shown with is one of its own that no earlier roster with the same header has. */
  lemma KeptExactly(rosters: seq<Passage>, i: nat, row: string, r: Reader)
    requires i < |rosters|
    ensures row in Contents(KeptRows(rosters, i, r)) <==> row in RowsOf(rosters[i], r) && !Repeated(rosters, i, row, r)
  {
    FreshContents(rosters, i, Rows(rosters[i].text, r), r);
  }

  /** Trimming leaves the header and the order of the rows alone. */
  lemma TrimmingKeepsOrder(rosters: seq<Passage>, i: nat, r: Reader)
    requires i < |rosters|
    ensures Head(rosters[i].text, r) + Rows(rosters[i].text, r) == SplitLines(rosters[i].text)
    ensures Among(KeptRows(rosters, i, r), Rows(rosters[i].text, r))
    ensures Trimmed(rosters, i, r).text == StrJoin("\n", Head(rosters[i].text, r) + KeptRows(rosters, i, r))
    ensures Trimmed(rosters, i, r).id == rosters[i].id && Trimmed(rosters, i, r).source == rosters[i].source
  {
    hide KeptRows, StrJoin;
    FreshAmong(rosters, i, Rows(rosters[i].text, r), r);
    assert KeptRows(rosters, i, r) == FreshRows(rosters, i, Rows(rosters[i].text, r), r) by { KeptAre(rosters, i, r); }
    var lines, k := SplitLines(rosters[i].text), |Head(rosters[i].text, r)|;
    assert lines[..k] + lines[k..] == lines;
  }

  lemma KeptAre(rosters: seq<Passage>, i: nat, r: Reader)
    requires i < |rosters|
    ensures KeptRows(rosters, i, r) == FreshRows(rosters, i, Rows(rosters[i].text, r), r)
  {
  }

  /** Trimming loses no row: a row of a roster is shown by that roster or by an earlier one with the same header. */
  lemma {:induction false} NoRowLost(rosters: seq<Passage>, i: nat, row: string, r: Reader) returns (j: nat)
    requires i < |rosters| && row in RowsOf(rosters[i], r)
    ensures j <= i && KeyOf(rosters[j], r) == KeyOf(rosters[i], r) && row in Contents(KeptRows(rosters, j, r))
    decreases i
  {
    hide KeyOf, RowsOf, KeptRows;
    KeptExactly(rosters, i, row, r);
    if Repeated(rosters, i, row, r) {
      var k :| 0 <= k < i && Holds(rosters[k], KeyOf(rosters[i], r), row, r);
      j := NoRowLost(rosters, k, row, r);
    } else {
      j := i;
    }
  }

  /** And it shows no row twice: two rosters with the same header are shown with different rows. */
  lemma NoRowTwice(rosters: seq<Passage>, i: nat, j: nat, r: Reader)
    requires i < j < |rosters| && KeyOf(rosters[i], r) == KeyOf(rosters[j], r)
    ensures Contents(KeptRows(rosters, i, r)) !! Contents(KeptRows(rosters, j, r))
  {
    hide KeyOf, RowsOf, KeptRows;
    forall row | row in Contents(KeptRows(rosters, i, r)) ensures row !in Contents(KeptRows(rosters, j, r)) {
      KeptExactly(rosters, i, row, r);
      KeptExactly(rosters, j, row, r);
      assert Holds(rosters[i], KeyOf(rosters[j], r), row, r);
    }
  }

  // ---------------------------------------------------------------- rosters first

  function Rosters(passages: seq<Passage>, r: Reader): seq<Passage> {
    if passages == [] then []
    else (if IsRoster(passages[0].text, r) then [passages[0]] else []) + Rosters(passages[1..], r)
  }

  function Others(passages: seq<Passage>, r: Reader): seq<Passage> {
    if passages == [] then []
    else (if IsRoster(passages[0].text, r) then [] else [passages[0]]) + Others(passages[1..], r)
  }

  /** The passages as they are shown. */
  function Arranged(passages: seq<Passage>, r: Reader): seq<Passage> {
    AllTrimmed(Rosters(passages, r), r) + Others(passages, r)
  }

  /** The end of expand_evidence. */
  method Arrange(passages: seq<Passage>, r: Reader) returns (shown: seq<Passage>)
    ensures shown == Arranged(passages, r)
  {
    var trimmed := TrimRosters(Rosters(passages, r), r);
    shown := trimmed + Others(passages, r);
  }

  function Ids(passages: seq<Passage>): (ids: seq<string>)
    ensures |ids| == |passages|
  {
    seq(|passages|, k requires 0 <= k < |passages| => passages[k].id)
  }

  /** Every passage is shown once: the ids shown are those of the passages, rosters first. */
  lemma {:induction false} ArrangedOnce(passages: seq<Passage>, r: Reader)
    ensures multiset(Rosters(passages, r)) + multiset(Others(passages, r)) == multiset(passages)
  {
    hide IsRoster;
    if passages != [] {
      ArrangedOnce(passages[1..], r);
      assert passages == [passages[0]] + passages[1..];
    }
  }
}

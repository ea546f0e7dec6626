/** Which passages the budget takes, and which rows of the tables reach the model. */
module EvidencePacking {
  import opened Prelude
  import opened PythonText
  import opened RosterEvidence
  import opened TableChunks
  import opened TableText

  // ---------------------------------------------------------------- packing

  /** What an entry takes of the budget, what is said about it beside its text, and the budget. */
  datatype Packer = Packer(size: (seq<Passage>, nat) -> nat, about: (seq<Passage>, nat) -> string, budget: nat)

  type Identity = (string, string)

  function IdentityOf(shown: seq<Passage>, k: nat, p: Packer): Identity
    requires k < |shown|
  {
    (shown[k].text, p.about(shown, k))
  }

  /** The passage is packed: it is not blank, not packed already, and there is room for it. */
  predicate Fits(shown: seq<Passage>, k: nat, left: nat, seen: set<Identity>, p: Packer)
    requires k < |shown|
  {
    Strip(shown[k].text) != "" && IdentityOf(shown, k, p) !in seen && p.size(shown, k) <= left
  }

  /** Rising positions from k on. */
  predicate Rising(positions: seq<nat>, k: nat, n: nat) {
    && (forall i :: 0 <= i < |positions| ==> k <= positions[i] < n)
    && forall i, j :: 0 <= i < j < |positions| ==> positions[i] < positions[j]
  }

  /** The positions packed from k on, with so much budget left and these identities packed before. */
  function PackFrom(shown: seq<Passage>, k: nat, left: nat, seen: set<Identity>, p: Packer): seq<nat>
    requires k <= |shown|
    decreases |shown| - k
  {
    if k == |shown| then []
    else if !Fits(shown, k, left, seen, p) then PackFrom(shown, k + 1, left, seen, p)
    else [k] + PackFrom(shown, k + 1, left - p.size(shown, k), seen + {IdentityOf(shown, k, p)}, p)
  }

  lemma {:induction false} PackRises(shown: seq<Passage>, k: nat, left: nat, seen: set<Identity>, p: Packer)
    requires k <= |shown|
    ensures Rising(PackFrom(shown, k, left, seen, p), k, |shown|)
    decreases |shown| - k
  {
    hide Fits, IdentityOf;
    if k < |shown| {
      if Fits(shown, k, left, seen, p) {
        RoomFor(shown, k, left, seen, p);
        PackRises(shown, k + 1, left - p.size(shown, k), seen + {IdentityOf(shown, k, p)}, p);
      } else {
        PackRises(shown, k + 1, left, seen, p);
      }
    }
  }

  function Chosen(shown: seq<Passage>, p: Packer): seq<nat> {
    PackFrom(shown, 0, p.budget, {}, p)
  }

  lemma ChosenRise(shown: seq<Passage>, p: Packer)
    ensures Rising(Chosen(shown, p), 0, |shown|)
  {
    PackRises(shown, 0, p.budget, {}, p);
  }

  /** The loop of pack_evidence. */
  method PackEvidence(shown: seq<Passage>, p: Packer) returns (chosen: seq<nat>)
    ensures chosen == Chosen(shown, p)
  {
    hide *;
    chosen := [];
    var left: nat, seen: set<Identity> := p.budget, {};
    assert [] + Chosen(shown, p) == Chosen(shown, p);
    PackEnds(shown, p);
    for k := 0 to |shown|
      invariant chosen + PackFrom(shown, k, left, seen, p) == Chosen(shown, p)
    {
      PackStep(shown, k, left, seen, p, chosen);
      if Fits(shown, k, left, seen, p) {
        RoomFor(shown, k, left, seen, p);
        seen := seen + {IdentityOf(shown, k, p)};
        left := left - p.size(shown, k);
        chosen := chosen + [k];
      }
    }
  }

  lemma PackEnds(shown: seq<Passage>, p: Packer)
    ensures Chosen(shown, p) == PackFrom(shown, 0, p.budget, {}, p)
    ensures forall left: nat, seen: set<Identity> :: PackFrom(shown, |shown|, left, seen, p) == []
  {
  }

  lemma PackStep(shown: seq<Passage>, k: nat, left: nat, seen: set<Identity>, p: Packer, chosen: seq<nat>)
    requires k < |shown|
    ensures
      chosen + PackFrom(shown, k, left, seen, p)
      == if !Fits(shown, k, left, seen, p) then chosen + PackFrom(shown, k + 1, left, seen, p)
         else (chosen + [k]) + PackFrom(shown, k + 1, left - p.size(shown, k), seen + {IdentityOf(shown, k, p)}, p)
  {
    hide Strip, Rising;
    if Fits(shown, k, left, seen, p) {
      var rest := PackFrom(shown, k + 1, left - p.size(shown, k), seen + {IdentityOf(shown, k, p)}, p);
      assert chosen + ([k] + rest) == (chosen + [k]) + rest;
    }
  }

  /** Those of rising positions that are before j. */
  function Prior(positions: seq<nat>, j: nat): seq<nat> {
    if positions == [] || positions[0] >= j then [] else [positions[0]] + Prior(positions[1..], j)
  }

  function Total(shown: seq<Passage>, positions: seq<nat>, p: Packer): nat {
    if positions == [] then 0 else p.size(shown, positions[0]) + Total(shown, positions[1..], p)
  }

  /** What has been packed before the position leaves room for it, and is not like it. */
  ghost predicate FitsAfter(shown: seq<Passage>, chosen: seq<nat>, left: nat, seen: set<Identity>, p: Packer, j: nat)
    requires j < |shown|
  {
    && Strip(shown[j].text) != "" && IdentityOf(shown, j, p) !in seen
    && (forall x :: x in Prior(chosen, j) && x < |shown| ==> IdentityOf(shown, x, p) != IdentityOf(shown, j, p))
    && p.size(shown, j) + Total(shown, Prior(chosen, j), p) <= left
  }

  lemma FitsAfterFirst(shown: seq<Passage>, k: nat, rest: seq<nat>, left: nat, seen: set<Identity>, p: Packer, j: nat)
    requires k < j < |shown| && p.size(shown, k) <= left
    ensures FitsAfter(shown, [k] + rest, left, seen, p, j)
       <==> FitsAfter(shown, rest, left - p.size(shown, k), seen + {IdentityOf(shown, k, p)}, p, j)
  {
    hide Strip, IdentityOf;
    assert ([k] + rest)[1..] == rest;
    var more := Prior([k] + rest, j);
    assert more == [k] + Prior(rest, j) && more[1..] == Prior(rest, j);
    assert Total(shown, more, p) == p.size(shown, k) + Total(shown, Prior(rest, j), p);
    assert forall x :: x in more <==> x == k || x in Prior(rest, j);
  }

  lemma NothingPrior(shown: seq<Passage>, chosen: seq<nat>, left: nat, seen: set<Identity>, p: Packer, j: nat)
    requires j < |shown| && (chosen != [] ==> j <= chosen[0])
    ensures FitsAfter(shown, chosen, left, seen, p, j) <==> Fits(shown, j, left, seen, p)
  {
    hide Strip, IdentityOf;
    assert Prior(chosen, j) == [];
  }

  /** Exactly when a passage is packed: it is not blank, none like it is packed before it, and what is packed before leaves
      room for it. */
  lemma {:induction false} PackedExactly(shown: seq<Passage>, k: nat, left: nat, seen: set<Identity>, p: Packer, j: nat)
    requires k <= j < |shown|
    ensures j in PackFrom(shown, k, left, seen, p) <==> FitsAfter(shown, PackFrom(shown, k, left, seen, p), left, seen, p, j)
    decreases |shown| - k
  {
    hide FitsAfter, Fits, IdentityOf;
    var chosen := PackFrom(shown, k, left, seen, p);
    PackRises(shown, k, left, seen, p);
    if k == j {
      InRest(shown, k, left, seen, p);
      NothingPrior(shown, chosen, left, seen, p, j);
    } else if Fits(shown, k, left, seen, p) {
      RoomFor(shown, k, left, seen, p);
      var rest := PackFrom(shown, k + 1, left - p.size(shown, k), seen + {IdentityOf(shown, k, p)}, p);
      PackedExactly(shown, k + 1, left - p.size(shown, k), seen + {IdentityOf(shown, k, p)}, p, j);
      FitsAfterFirst(shown, k, rest, left, seen, p, j);
    } else {
      PackedExactly(shown, k + 1, left, seen, p, j);
    }
  }

  lemma InRest(shown: seq<Passage>, k: nat, left: nat, seen: set<Identity>, p: Packer)
    requires k < |shown|
    ensures k in PackFrom(shown, k, left, seen, p) <==> Fits(shown, k, left, seen, p)
  {
    hide Fits, IdentityOf;
    if !Fits(shown, k, left, seen, p) {
      PackRises(shown, k + 1, left, seen, p);
    }
  }

  lemma RoomFor(shown: seq<Passage>, k: nat, left: nat, seen: set<Identity>, p: Packer)
    requires k < |shown| && Fits(shown, k, left, seen, p)
    ensures p.size(shown, k) <= left
  {
  }

  // ---------------------------------------------------------------- the rows that reach the model

  /** One of the packed rosters with this header is shown with the row. */
  ghost predicate Reaches(rosters: seq<Passage>, chosen: seq<nat>, key: Key, row: string, r: Reader) {
    exists j :: 0 <= j < |rosters| && j in chosen && Brings(rosters, j, key, row, r)
  }

  predicate Brings(rosters: seq<Passage>, j: nat, key: Key, row: string, r: Reader)
    requires j < |rosters|
  {
    KeyOf(rosters[j], r) == key && row in Contents(KeptRows(rosters, j, r))
  }

  lemma BringsExactly(rosters: seq<Passage>, j: nat, key: Key, row: string, r: Reader)
    requires j < |rosters|
    ensures Brings(rosters, j, key, row, r) <==> Holds(rosters[j], key, row, r) && !HeldBefore(rosters, j, key, row, r)
  {
    hide KeyOf, RowsOf, KeptRows, HeldBefore;
    KeptExactly(rosters, j, row, r);
  }

  /** Only the first roster that has a row under a header is shown with it. */
  lemma BroughtOnce(rosters: seq<Passage>, i: nat, j: nat, key: Key, row: string, r: Reader)
    requires i < |rosters| && j < |rosters| && Brings(rosters, i, key, row, r) && Brings(rosters, j, key, row, r)
    ensures i == j
  {
    hide Holds, Brings;
    BringsExactly(rosters, i, key, row, r);
    BringsExactly(rosters, j, key, row, r);
  }

  /** A row that a packed roster has is kept from the model exactly when it is shown by an earlier roster, with the same
      header, that is not packed. */
  lemma LostExactlyWhen(rosters: seq<Passage>, chosen: seq<nat>, i: nat, row: string, r: Reader)
    requires i < |rosters| && i in chosen && row in RowsOf(rosters[i], r)
    ensures !Reaches(rosters, chosen, KeyOf(rosters[i], r), row, r)
       <==> exists j :: 0 <= j < i && j !in chosen && Brings(rosters, j, KeyOf(rosters[i], r), row, r)
  {
    hide KeyOf, RowsOf, KeptRows;
    var key := KeyOf(rosters[i], r);
    var first := NoRowLost(rosters, i, row, r);
    assert Brings(rosters, first, key, row, r);
    if Reaches(rosters, chosen, key, row, r) {
      var j :| 0 <= j < |rosters| && j in chosen && Brings(rosters, j, key, row, r);
      BroughtOnce(rosters, first, j, key, row, r);
    }
    forall j | 0 <= j < i && Brings(rosters, j, key, row, r) ensures j == first {
      BroughtOnce(rosters, first, j, key, row, r);
    }
  }

  function SizesFrom(shown: seq<Passage>, k: nat, j: nat, p: Packer): nat
    requires k <= j <= |shown|
    decreases j - k
  {
    if k == j then 0 else p.size(shown, k) + SizesFrom(shown, k + 1, j, p)
  }

  lemma {:induction false} FitsPacked(shown: seq<Passage>, k: nat, left: nat, seen: set<Identity>, p: Packer, j: nat)
    requires k <= j < |shown| && SizesFrom(shown, k, j + 1, p) <= left
    requires Strip(shown[j].text) != "" && IdentityOf(shown, j, p) !in seen
    requires forall x :: k <= x < j ==> IdentityOf(shown, x, p) != IdentityOf(shown, j, p)
    ensures j in PackFrom(shown, k, left, seen, p)
    decreases |shown| - k
  {
    hide Strip;
    if k < j {
      if !Fits(shown, k, left, seen, p) {
        FitsPacked(shown, k + 1, left, seen, p, j);
      } else {
        FitsPacked(shown, k + 1, left - p.size(shown, k), seen + {IdentityOf(shown, k, p)}, p, j);
      }
    }
  }

  /** When the budget holds all rosters, and no two are shown alike, every row of every roster reaches the model. */
  lemma AllRowsReach(passages: seq<Passage>, r: Reader, p: Packer, i: nat, row: string)
    requires i < |Rosters(passages, r)| && row in RowsOf(Rosters(passages, r)[i], r)
    requires
      var rosters, shown := Rosters(passages, r), Arranged(passages, r);
      && SizesFrom(shown, 0, |rosters|, p) <= p.budget
      && (forall k :: 0 <= k < |rosters| ==> Strip(shown[k].text) != "")
      && (forall j, k :: 0 <= j < k < |rosters| ==> IdentityOf(shown, j, p) != IdentityOf(shown, k, p))
    ensures Reaches(Rosters(passages, r), Chosen(Arranged(passages, r), p), KeyOf(Rosters(passages, r)[i], r), row, r)
  {
    hide KeyOf, RowsOf, KeptRows, Rosters, Others, AllTrimmed, Strip, PackFrom;
    var rosters, shown := Rosters(passages, r), Arranged(passages, r);
    var j := NoRowLost(rosters, i, row, r);
    SizesSplit(shown, 0, j + 1, |rosters|, p);
    FitsPacked(shown, 0, p.budget, {}, p, j);
    assert Brings(rosters, j, KeyOf(rosters[i], r), row, r);
  }

  lemma {:induction false} SizesSplit(shown: seq<Passage>, k: nat, j: nat, n: nat, p: Packer)
    requires k <= j <= n <= |shown|
    ensures SizesFrom(shown, k, j, p) <= SizesFrom(shown, k, n, p)
    decreases j - k
  {
    if k < j {
      SizesSplit(shown, k + 1, j, n, p);
    }
  }

  // ---------------------------------------------------------------- the evidence of a question

  /** The passages that were read for a question, in their order, and what decides about them. */
  datatype Gathering = Gathering(passages: seq<Passage>, reader: Reader, packer: Packer)
  {
    function Shown(): seq<Passage> {
      Arranged(passages, reader)
    }

    /** What the model is given. */
    function Evidence(): seq<Passage> {
      ChosenRise(Shown(), packer);
      At(Shown(), Chosen(Shown(), packer))
    }
  }

  function At(shown: seq<Passage>, positions: seq<nat>): (list: seq<Passage>)
    requires Rising(positions, 0, |shown|)
    ensures |list| == |positions|
  {
    seq(|positions|, k requires 0 <= k < |positions| => shown[positions[k]])
  }

  function Texts(passages: seq<Passage>): (texts: seq<string>)
    ensures |texts| == |passages|
  {
    seq(|passages|, k requires 0 <= k < |passages| => passages[k].text)
  }

  /** The evidence of the program: arranged and packed. */
  method Gather(g: Gathering) returns (evidence: seq<Passage>)
    ensures evidence == g.Evidence()
  {
    var shown := Arrange(g.passages, g.reader);
    var chosen := PackEvidence(shown, g.packer);
    ChosenRise(shown, g.packer);
    evidence := At(shown, chosen);
  }

  lemma {:induction false} RosterAmong(passages: seq<Passage>, r: Reader, p: Passage)
    ensures p in Rosters(passages, r) <==> p in passages && IsRoster(p.text, r)
    ensures p in Others(passages, r) <==> p in passages && !IsRoster(p.text, r)
  {
    hide IsRoster;
    if passages != [] {
      RosterAmong(passages[1..], r, p);
      assert passages == [passages[0]] + passages[1..];
    }
  }

  /** e shows passage p: as it was read, or, if it is a roster, its header and some of its rows in their order. */
  ghost predicate Shows(e: Passage, p: Passage, r: Reader) {
    && e.id == p.id && e.source == p.source
    && (e.text == p.text
        || (IsRoster(p.text, r)
            && exists rows: seq<string> :: Among(rows, Rows(p.text, r)) && e.text == StrJoin("\n", Head(p.text, r) + rows)))
  }

  lemma ArrangedShows(passages: seq<Passage>, r: Reader, e: Passage) returns (p: Passage)
    requires e in Arranged(passages, r)
    ensures p in passages && Shows(e, p, r)
  {
    hide IsRoster, Rosters, Others, Head, Rows, KeptRows, StrJoin;
    var rosters, others := Rosters(passages, r), Others(passages, r);
    if e in others {
      p := e;
    } else {
      assert e in AllTrimmed(rosters, r);
      var i :| 0 <= i < |rosters| && AllTrimmed(rosters, r)[i] == e;
      p := rosters[i];
      TrimmingKeepsOrder(rosters, i, r);
    }
    RosterAmong(passages, r, p);
  }

  lemma AtAmong(shown: seq<Passage>, positions: seq<nat>, e: Passage)
    requires Rising(positions, 0, |shown|) && e in At(shown, positions)
    ensures e in shown
  {
  }

  lemma AtDistinct(shown: seq<Passage>, positions: seq<nat>)
    requires Rising(positions, 0, |shown|) && Distinct(Ids(shown))
    ensures Distinct(Ids(At(shown, positions)))
  {
    forall i, j | 0 <= i < j < |positions| ensures Ids(At(shown, positions))[i] != Ids(At(shown, positions))[j] {
      assert Ids(shown)[positions[i]] != Ids(shown)[positions[j]];
    }
  }

  /** Everything the model is given shows a passage that was read. */
  lemma EvidenceShows(g: Gathering, e: Passage) returns (p: Passage)
    requires e in g.Evidence()
    ensures p in g.passages && Shows(e, p, g.reader)
  {
    hide Arranged, At, Chosen, Shows, Rising;
    ChosenRise(g.Shown(), g.packer);
    AtAmong(g.Shown(), Chosen(g.Shown(), g.packer), e);
    p := ArrangedShows(g.passages, g.reader, e);
  }

  lemma IdsOf(passages: seq<Passage>)
    ensures forall x :: x in Ids(passages) <==> exists p :: p in passages && p.id == x
  {
    forall p | p in passages ensures p.id in Ids(passages) {
      var k :| 0 <= k < |passages| && passages[k] == p;
      assert Ids(passages)[k] == p.id;
    }
  }

  lemma {:induction false} PartsDistinct(passages: seq<Passage>, r: Reader)
    requires Distinct(Ids(passages))
    ensures Distinct(Ids(Rosters(passages, r))) && Distinct(Ids(Others(passages, r)))
    ensures forall p, q :: p in Rosters(passages, r) && q in Others(passages, r) ==> p.id != q.id
  {
    hide IsRoster;
    if passages != [] {
      var first, rest := passages[0], passages[1..];
      assert Distinct(Ids(rest)) by { assert forall k :: 0 <= k < |rest| ==> Ids(rest)[k] == Ids(passages)[k + 1]; }
      PartsDistinct(rest, r);
      forall p | p in Rosters(rest, r) || p in Others(rest, r) ensures p.id != first.id {
        RosterAmong(rest, r, p);
        var k :| 0 <= k < |rest| && rest[k] == p;
        assert Ids(passages)[k + 1] == p.id && Ids(passages)[0] == first.id;
      }
      DistinctFirst(first, Rosters(rest, r));
      DistinctFirst(first, Others(rest, r));
      assert [] + Rosters(rest, r) == Rosters(rest, r) && [] + Others(rest, r) == Others(rest, r);
    }
  }

  lemma DistinctFirst(first: Passage, rest: seq<Passage>)
    requires Distinct(Ids(rest)) && forall p :: p in rest ==> p.id != first.id
    ensures Distinct(Ids([first] + rest))
  {
    var all := Ids([first] + rest);
    forall i, j | 0 <= i < j < |all| ensures all[i] != all[j] {
      assert all[j] == Ids(rest)[j - 1] && rest[j - 1] in rest;
      if i > 0 {
        assert all[i] == Ids(rest)[i - 1];
      }
    }
  }

  lemma ConcatDistinct(a: seq<Passage>, b: seq<Passage>)
    requires Distinct(Ids(a)) && Distinct(Ids(b)) && forall p, q :: p in a && q in b ==> p.id != q.id
    ensures Distinct(Ids(a + b))
  {
    forall i, j | 0 <= i < j < |a + b| ensures Ids(a + b)[i] != Ids(a + b)[j] {
      if j < |a| {
        assert Ids(a)[i] != Ids(a)[j];
      } else if i >= |a| {
        assert Ids(b)[i - |a|] != Ids(b)[j - |a|];
      } else {
        assert a[i] in a && b[j - |a|] in b;
      }
    }
  }

  lemma ArrangedDistinct(passages: seq<Passage>, r: Reader)
    requires Distinct(Ids(passages))
    ensures Distinct(Ids(Arranged(passages, r)))
  {
    hide Rosters, Others, Trimmed;
    var rosters, others := Rosters(passages, r), Others(passages, r);
    PartsDistinct(passages, r);
    assert Ids(AllTrimmed(rosters, r)) == Ids(rosters) by {
      forall k | 0 <= k < |rosters| ensures Trimmed(rosters, k, r).id == rosters[k].id {
        TrimmingKeepsOrder(rosters, k, r);
      }
    }
    forall p, q | p in AllTrimmed(rosters, r) && q in others ensures p.id != q.id {
      var k :| 0 <= k < |rosters| && AllTrimmed(rosters, r)[k] == p;
      assert Ids(AllTrimmed(rosters, r))[k] == p.id && Ids(rosters)[k] == rosters[k].id;
      assert rosters[k] in rosters;
    }
    ConcatDistinct(AllTrimmed(rosters, r), others);
  }

  /** No passage is given twice. */
  lemma EvidenceDistinct(g: Gathering)
    requires Distinct(Ids(g.passages))
    ensures Distinct(Ids(g.Evidence()))
  {
    hide Arranged, Chosen, At, Rising, Ids;
    ArrangedDistinct(g.passages, g.reader);
    ChosenRise(g.Shown(), g.packer);
    AtDistinct(g.Shown(), Chosen(g.Shown(), g.packer));
  }

  // ---------------------------------------------------------------- a row that is lost

  /** Lines that read as they are written. */
  predicate Written(lines: seq<string>) {
    forall k :: 0 <= k < |lines| ==> OneLine(lines[k]) && lines[k] != "" && Bare(lines[k])
  }

  lemma BareIsStripped(s: string)
    requires Bare(s)
    ensures Strip(s) == s
  {
    StripIs("", s, "");
    assert "" + s + "" == s;
  }

  lemma WrittenLines(lines: seq<string>)
    requires Written(lines)
    ensures SplitLines(StrJoin("\n", lines)) == lines && StripAll(lines) == lines && NonBlank(lines) == lines
  {
    hide SplitLines, Strip, Bare, OneLine, NonBlank;
    forall k | 0 <= k < |lines| ensures Strip(lines[k]) == lines[k] {
      BareIsStripped(lines[k]);
    }
    LinesOfJoin(lines);
    NonBlankAll(lines);
  }

  /** A header, a rule and at least two rows. */
  lemma WrittenRoster(lines: seq<string>, source: Source, id: string, r: Reader)
    requires Written(lines) && |lines| >= 4 && r.isRule(lines[1]) && !r.isRule(lines[0]) && r.lists(lines[0])
    ensures
      var p := Passage(id, StrJoin("\n", lines), source);
      && IsRoster(p.text, r) && Head(p.text, r) == lines[..2] && Rows(p.text, r) == lines[2..]
      && KeyOf(p, r) == Key(source, lines[0])
  {
    hide SplitLines, Strip, OneLine, Bare, NonBlank, FirstRule, StrJoin;
    WrittenLines(lines);
    BareIsStripped(lines[0]);
    assert FirstRule(lines, r.isRule) == 1 by { SecondIsRule(lines, r.isRule); }
  }

  lemma SecondIsRule(lines: seq<string>, isRule: string -> bool)
    requires |lines| > 1 && isRule(lines[1]) && !isRule(lines[0])
    ensures FirstRule(lines, isRule) == 1
  {
    assert lines[1..][0] == lines[1];
  }

  const FIRST: seq<string> := ["| Employee |", "|---|", "| a |", "| b |", "| c |"]
  const SECOND: seq<string> := ["| Employee |", "|---|", "| c |", "| d |"]

  function Staff(): Source { Source("document", None, None) }

  /** Two chunks of one table; the last row of the first is the first row of the second. */
  function StaffTable(): seq<Passage> {
    [Passage("first", StrJoin("\n", FIRST), Staff()), Passage("second", StrJoin("\n", SECOND), Staff())]
  }

  function StaffReader(): Reader {
    Reader(line => line == "|---|", header => header == "| Employee |")
  }

  /** Characters are counted, and there is room for one of the chunks, but not for the longer one. */
  function SmallPacker(): Packer {
    Packer((shown: seq<Passage>, k: nat) => if k < |shown| then |shown[k].text| else 0, (shown, k) => "", 30)
  }

  /** A line between pipes. */
  predicate Piped(s: string) {
    && |s| >= 2 && s[0] == '|' == s[|s| - 1]
    && forall i :: 0 <= i < |s| ==> s[i] in {'|', ' ', '-'} || 'a' <= s[i] <= 'z' || 'A' <= s[i] <= 'Z'
  }

  lemma PipedIsWritten(s: string)
    requires Piped(s)
    ensures OneLine(s) && s != "" && Bare(s)
  {
  }

  lemma PipedLines(lines: seq<string>)
    requires forall k :: 0 <= k < |lines| ==> Piped(lines[k])
    ensures Written(lines)
  {
    hide Piped, OneLine, Bare;
    forall k | 0 <= k < |lines| ensures OneLine(lines[k]) && lines[k] != "" && Bare(lines[k]) {
      PipedIsWritten(lines[k]);
    }
  }

  lemma PipedStaff()
    ensures Piped("| Employee |") && Piped("|---|")
    ensures Piped("| a |") && Piped("| b |") && Piped("| c |") && Piped("| d |")
  {
  }

  lemma StaffWritten()
    ensures Written(FIRST) && Written(SECOND)
  {
    hide Piped, Written;
    PipedStaff();
    PipedLines(FIRST);
    PipedLines(SECOND);
  }

  lemma StaffRosters()
    ensures
      var r, t := StaffReader(), StaffTable();
      && Rosters(t, r) == t && Others(t, r) == []
      && Head(t[0].text, r) == FIRST[..2] && Rows(t[0].text, r) == FIRST[2..]
      && Head(t[1].text, r) == SECOND[..2] && Rows(t[1].text, r) == SECOND[2..]
      && KeyOf(t[0], r) == KeyOf(t[1], r)
  {
    hide IsRoster, Head, Rows, KeyOf, StrJoin;
    var r, t := StaffReader(), StaffTable();
    StaffWritten();
    WrittenRoster(FIRST, Staff(), "first", r);
    WrittenRoster(SECOND, Staff(), "second", r);
    assert t[1..][0] == t[1] && t[1..][1..] == [];
    assert Rosters([], r) == [] && Others([], r) == [];
    assert Rosters(t[1..], r) == [t[1]] + [] && Others(t[1..], r) == [] + [];
    assert Rosters(t, r) == [t[0]] + [t[1]];
  }

  lemma StaffRows()
    ensures
      var r, t := StaffReader(), StaffTable();
      && "| c |" in RowsOf(t[0], r) && "| d |" !in RowsOf(t[0], r) && "| c |" in RowsOf(t[1], r)
      && Strip("| a |") == "| a |" && Strip("| b |") == "| b |" && Strip("| c |") == "| c |" && Strip("| d |") == "| d |"
  {
    hide Rows, RowsOf, Strip, StrJoin, Head, KeyOf, Rosters, Others;
    StaffRosters();
    StaffStrips();
    RowsAre(StaffTable()[0], ["| a |", "| b |", "| c |"], StaffReader());
    RowsAre(StaffTable()[1], ["| c |", "| d |"], StaffReader());
  }

  lemma RowsAre(p: Passage, rows: seq<string>, r: Reader)
    requires Rows(p.text, r) == rows && forall k :: 0 <= k < |rows| ==> Strip(rows[k]) == rows[k] != ""
    ensures forall row: string :: row in RowsOf(p, r) <==> row in rows
  {
    hide Rows, Strip, Contents;
    ContentsAre(rows);
  }

  lemma StaffStrips()
    ensures Strip("| a |") == "| a |" && Strip("| b |") == "| b |" && Strip("| c |") == "| c |" && Strip("| d |") == "| d |"
  {
    hide Strip, Piped;
    PipedStaff();
    PipedIsStripped("| a |");
    PipedIsStripped("| b |");
    PipedIsStripped("| c |");
    PipedIsStripped("| d |");
  }

  lemma ContentsAre(rows: seq<string>)
    requires forall k :: 0 <= k < |rows| ==> Strip(rows[k]) == rows[k] != ""
    ensures forall row: string :: row in Contents(rows) <==> row in rows
  {
    hide Strip;
  }

  lemma PipedIsStripped(s: string)
    requires Piped(s)
    ensures Strip(s) == s
  {
    hide Piped, Bare, Strip;
    PipedIsWritten(s);
    BareIsStripped(s);
  }

  lemma FreshOfTwo(rosters: seq<Passage>, i: nat, a: string, b: string, r: Reader)
    requires i < |rosters| && Repeated(rosters, i, Strip(a), r) && !Repeated(rosters, i, Strip(b), r)
    ensures FreshRows(rosters, i, [a, b], r) == [b]
  {
    hide Repeated, Strip;
    var rows := [a, b];
    assert rows[1..] == [b] && rows[1..][1..] == [];
    assert FreshRows(rosters, i, [], r) == [];
    assert FreshRows(rosters, i, rows[1..], r) == [b] + [];
    assert FreshRows(rosters, i, rows, r) == [] + [b];
  }

  /** What is left of the second chunk. */
  lemma StaffTrimmed()
    ensures
      var r, t := StaffReader(), StaffTable();
      && KeptRows(t, 1, r) == ["| d |"] && KeptRows(t, 0, r) == FIRST[2..]
      && Brings(t, 0, KeyOf(t[1], r), "| c |", r)
  {
    hide Rows, Strip, RowsOf, StrJoin, Head, KeyOf, KeptRows;
    var r, t := StaffReader(), StaffTable();
    StaffRosters();
    StaffRows();
    KeptAre(t, 0, r);
    KeptAre(t, 1, r);
    assert Holds(t[0], KeyOf(t[1], r), "| c |", r) && Repeated(t, 1, "| c |", r);
    assert !Holds(t[0], KeyOf(t[1], r), "| d |", r) && !Repeated(t, 1, "| d |", r);
    assert SECOND[2..] == ["| c |", "| d |"];
    FreshOfTwo(t, 1, "| c |", "| d |", r);
    FirstIsKept(t, FIRST[2..], r);
    BringsExactly(t, 0, KeyOf(t[1], r), "| c |", r);
  }

  lemma {:induction false} FirstIsKept(rosters: seq<Passage>, rows: seq<string>, r: Reader)
    requires rosters != []
    ensures FreshRows(rosters, 0, rows, r) == rows
  {
    hide Strip;
    if rows != [] {
      FirstIsKept(rosters, rows[1..], r);
      assert !Repeated(rosters, 0, Strip(rows[0]), r);
    }
  }

  lemma StaffLengths()
    ensures |StrJoin("\n", FIRST[..2] + FIRST[2..])| == 36 && |StrJoin("\n", SECOND[..2] + ["| d |"])| == 24
    ensures |StrJoin("\n", SECOND)| == 30
  {
    JoinedLengths(FIRST);
    JoinedLengths(SECOND);
    JoinedLengths(SECOND[..2] + ["| d |"]);
    assert FIRST[..2] + FIRST[2..] == FIRST;
  }

  function Lengths(lines: seq<string>): nat {
    if lines == [] then 0 else |lines[0]| + 1 + Lengths(lines[1..])
  }

  lemma {:induction false} JoinedLengths(lines: seq<string>)
    requires lines != []
    ensures |StrJoin("\n", lines)| == Lengths(lines) - 1
  {
    if |lines| > 1 {
      JoinedLengths(lines[1..]);
    }
  }

  /** Trimming can cost evidence: the first chunk does not fit the budget, the second one is packed without the row that the
      first one has, and would have been packed with it. */
  lemma StaffRowLost()
    ensures
      var t, r, p := StaffTable(), StaffReader(), SmallPacker();
      && r.Valid() && Rosters(t, r) == t && Chosen(Arranged(t, r), p) == [1]
      && "| c |" in RowsOf(t[1], r) && !Reaches(t, Chosen(Arranged(t, r), p), KeyOf(t[1], r), "| c |", r)
      && Chosen([t[1]], p) == [0]
  {
    hide Rows, Strip, RowsOf, StrJoin, Head, KeyOf, KeptRows, PackFrom, IdentityOf;
    var t, r, p := StaffTable(), StaffReader(), SmallPacker();
    StaffRosters();
    StaffRows();
    StaffTrimmed();
    StaffLengths();
    var shown := Arranged(t, r);
    assert shown == [Trimmed(t, 0, r), Trimmed(t, 1, r)];
    assert |shown[0].text| == 36 && |shown[1].text| == 24;
    JoinedStarts(SECOND[..2] + ["| d |"]);
    JoinedStarts(SECOND);
    PackedSecond(shown);
    PackedOnly(t[1]);
    LostExactlyWhen(t, [1], 1, "| c |", r);
  }

  lemma JoinedStarts(lines: seq<string>)
    requires lines != [] && lines[0] != ""
    ensures StrJoin("\n", lines) != "" && StrJoin("\n", lines)[0] == lines[0][0]
  {
  }

  lemma PipeIsVisible(s: string)
    requires s != "" && s[0] == '|'
    ensures Strip(s) != ""
  {
    assert LeadingSpaces(s) == 0 && s[0..] == s;
    assert !IsSpace(s[0]) && !Blank(s);
  }

  lemma PackedSecond(shown: seq<Passage>)
    requires |shown| == 2 && |shown[0].text| == 36 && |shown[1].text| == 24 && shown[1].text[0] == '|'
    ensures Chosen(shown, SmallPacker()) == [1]
  {
    hide Strip;
    var p := SmallPacker();
    PipeIsVisible(shown[1].text);
    assert PackFrom(shown, 2, 6, {} + {IdentityOf(shown, 1, p)}, p) == [];
    assert PackFrom(shown, 1, 30, {}, p) == [1] + [];
  }

  lemma PackedOnly(passage: Passage)
    requires |passage.text| == 30 && passage.text[0] == '|'
    ensures Chosen([passage], SmallPacker()) == [0]
  {
    hide Strip;
    var p := SmallPacker();
    PipeIsVisible(passage.text);
    assert PackFrom([passage], 1, 0, {} + {IdentityOf([passage], 0, p)}, p) == [];
    assert PackFrom([passage], 0, 30, {}, p) == [0] + [];
  }
}

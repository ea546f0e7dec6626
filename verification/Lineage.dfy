/** Over every run, the generations of a document form one linear history whose last element is
    the searchable generation, and the indexed version only moves forward. */
module Lineage {
  import opened Prelude
  import opened IngestTables
  import opened IngestRuns
  import Publication
  import Catalogue

  ghost predicate Linked(generations: map<Id, Generation>, chain: seq<Id>, i: nat)
    requires i < |chain|
  {
    && chain[i] in generations
    && generations[chain[i]].parent == if i == 0 then None else Some(chain[i - 1])
  }

  /** `chain` lists all generations of `d`, from the only root to the head, each one the parent
      of the next, with versions that never go down. */
  ghost predicate IsLineage(generations: map<Id, Generation>, d: Id, head: Option<Id>, chain: seq<Id>) {
    && (forall i, j :: 0 <= i < j < |chain| ==> chain[i] != chain[j])
    && (forall g :: g in chain <==> g in generations && generations[g].documentId == d)
    && head == (if chain == [] then None else Some(chain[|chain| - 1]))
    && (forall i :: 0 <= i < |chain| ==> Linked(generations, chain, i))
    && (forall i, j :: 0 <= i < j < |chain| ==> generations[chain[i]].version <= generations[chain[j]].version)
  }

  ghost predicate Linear(generations: map<Id, Generation>, d: Id, head: Option<Id>) {
    exists chain :: IsLineage(generations, d, head, chain)
  }

  /** What a document row says is indexed: the version of its head generation, never ahead of its content. */
  ghost predicate IndexedAsHead(generations: map<Id, Generation>, row: Document) {
    match row.activeGeneration
    case None => row.indexedVersion.None?
    case Some(g) => g in generations && row.indexedVersion == Some(generations[g].version) && generations[g].version <= row.version
  }

  ghost predicate GenerationsOwned(s: State) {
    forall g :: g in s.generations ==>
      && s.generations[g].documentId in s.documents
      && s.generations[g].tenantId == s.documents[s.generations[g].documentId].tenantId
  }

  ghost predicate AllLinear(s: State) {
    forall d :: d in s.documents ==> Linear(s.generations, d, s.documents[d].activeGeneration)
  }

  ghost predicate AllIndexed(s: State) {
    forall d :: d in s.documents ==> IndexedAsHead(s.generations, s.documents[d])
  }

  ghost predicate LineageInv(s: State) {
    GenerationsOwned(s) && AllLinear(s) && AllIndexed(s)
  }

  lemma LineageExtended(generations: map<Id, Generation>, d: Id, head: Option<Id>, chain: seq<Id>, g: Id, row: Generation)
    requires IsLineage(generations, d, head, chain) && g !in generations
    requires row.documentId == d && row.parent == head
    requires head.Some? ==> generations[head.value].version <= row.version
    ensures IsLineage(generations[g := row], d, Some(g), chain + [g])
  {
    var after, longer := generations[g := row], chain + [g];
    forall x ensures x in longer <==> x in after && after[x].documentId == d {
      assert x in longer <==> x in chain || x == g;
    }
    forall i | 0 <= i < |longer| ensures Linked(after, longer, i) {
      if i < |chain| {
        assert Linked(generations, chain, i) && chain[i] in chain;
      }
    }
    forall i, j | 0 <= i < j < |longer| ensures after[longer[i]].version <= after[longer[j]].version {
      assert longer[i] == chain[i];
      if j == |chain| {
        assert generations[chain[i]].version <= generations[chain[|chain| - 1]].version;
      }
    }
  }

  lemma LineageKept(before: map<Id, Generation>, after: map<Id, Generation>, d: Id, head: Option<Id>)
    requires Linear(before, d, head)
    requires forall g :: g in before && before[g].documentId == d ==> g in after && after[g] == before[g]
    requires forall g :: g in after && after[g].documentId == d ==> g in before && after[g] == before[g]
    ensures Linear(after, d, head)
  {
    var chain :| IsLineage(before, d, head, chain);
    forall i | 0 <= i < |chain| ensures chain[i] in after && after[chain[i]] == before[chain[i]] {
      assert chain[i] in chain;
    }
    forall i | 0 <= i < |chain| ensures Linked(after, chain, i) {
      assert Linked(before, chain, i);
    }
    assert IsLineage(after, d, head, chain);
  }

  /** Nothing about the histories changed; content versions may have gone up. */
  ghost predicate SameHistories(s: State, after: State) {
    && after.generations == s.generations
    && after.documents.Keys == s.documents.Keys
    && forall d :: d in s.documents ==>
         && after.documents[d].activeGeneration == s.documents[d].activeGeneration
         && after.documents[d].indexedVersion == s.documents[d].indexedVersion
         && after.documents[d].tenantId == s.documents[d].tenantId
         && s.documents[d].version <= after.documents[d].version
  }

  lemma ContentUpdateKeepsHistories(s: State, e: Event)
    requires e.UpdateContent? && Step(s, e).Ok?
    ensures SameHistories(s, Next(s, e))
  {
    var after := Next(s, e);
    assert after.documents == s.documents[e.d := after.documents[e.d]];
  }

  lemma AccessUpdateKeepsHistories(s: State, e: Event)
    requires e.UpdateAccess? && Step(s, e).Ok?
    ensures SameHistories(s, Next(s, e))
  {
    var after := Next(s, e);
    assert after.documents == s.documents[e.d := after.documents[e.d]];
  }

  lemma HistoriesKept(s: State, e: Event)
    requires !e.CreateDocument? && !e.DeleteDocument? && !e.Publish?
    ensures SameHistories(s, Next(s, e))
  {
    if Step(s, e).Err? {
    } else if QueueStep(e) {
      QueueTouchesOnlyJobs(s, e);
    } else if e.UpdateContent? {
      ContentUpdateKeepsHistories(s, e);
    } else if e.UpdateAccess? {
      AccessUpdateKeepsHistories(s, e);
    }
  }

  ghost predicate Published(s: State, after: State, d: Id, g: Id) {
    && d in s.documents && g !in s.generations && d in after.documents && g in after.generations
    && after.documents == s.documents[d := after.documents[d]]
    && after.generations == s.generations[g := after.generations[g]]
    && after.generations[g].documentId == d
    && after.generations[g].tenantId == s.documents[d].tenantId == after.documents[d].tenantId
    && after.generations[g].parent == s.documents[d].activeGeneration
    && after.generations[g].version == s.documents[d].version == after.documents[d].version
    && after.documents[d].activeGeneration == Some(g)
    && after.documents[d].indexedVersion == Some(s.documents[d].version)
  }

  lemma PublishEffect(s: State, r: Publication.Request, start: int, commit: int)
    requires Publication.Publish(s, r, start, commit).Ok?
    ensures r.job.generationId.Some?
    ensures Published(s, Publication.Publish(s, r, start, commit).value, r.document.id, r.job.generationId.value)
  {
  }

  lemma PublishedLinear(s: State, after: State, d: Id, g: Id)
    requires AllLinear(s) && AllIndexed(s) && Published(s, after, d, g)
    ensures AllLinear(after)
  {
    var row := s.documents[d];
    var chain :| IsLineage(s.generations, d, row.activeGeneration, chain);
    LineageExtended(s.generations, d, row.activeGeneration, chain, g, after.generations[g]);
    forall d' | d' in after.documents && d' != d
      ensures Linear(after.generations, d', after.documents[d'].activeGeneration)
    {
      assert after.documents[d'] == s.documents[d'];
      LineageKept(s.generations, after.generations, d', s.documents[d'].activeGeneration);
    }
  }

  lemma PublishedIndexed(s: State, after: State, d: Id, g: Id)
    requires AllIndexed(s) && Published(s, after, d, g)
    ensures AllIndexed(after)
  {
    forall d' | d' in after.documents && d' != d ensures IndexedAsHead(after.generations, after.documents[d']) {
      assert after.documents[d'] == s.documents[d'];
    }
  }

  lemma PublishedOwned(s: State, after: State, d: Id, g: Id)
    requires GenerationsOwned(s) && Published(s, after, d, g)
    ensures GenerationsOwned(after)
  {
  }

  lemma HeadOwned(generations: map<Id, Generation>, d: Id, head: Option<Id>)
    requires Linear(generations, d, head)
    ensures head.Some? ==> head.value in generations && generations[head.value].documentId == d
  {
    var chain :| IsLineage(generations, d, head, chain);
    if chain != [] {
      assert chain[|chain| - 1] in chain;
    }
  }

  lemma DeletedLinear(s: State, tenantId: Id, d: Id)
    requires AllLinear(s)
    ensures AllLinear(Catalogue.DeleteDocument(s, tenantId, d).value)
  {
    var after := Catalogue.DeleteDocument(s, tenantId, d).value;
    if d in s.documents && s.documents[d].tenantId == tenantId {
      forall d' | d' in after.documents ensures Linear(after.generations, d', after.documents[d'].activeGeneration) {
        assert after.documents[d'] == s.documents[d'];
        LineageKept(s.generations, after.generations, d', s.documents[d'].activeGeneration);
      }
    }
  }

  lemma DeletedOwned(s: State, tenantId: Id, d: Id)
    requires GenerationsOwned(s)
    ensures GenerationsOwned(Catalogue.DeleteDocument(s, tenantId, d).value)
  {
  }

  lemma DeletedIndexed(s: State, tenantId: Id, d: Id)
    requires AllLinear(s) && AllIndexed(s)
    ensures AllIndexed(Catalogue.DeleteDocument(s, tenantId, d).value)
  {
    var after := Catalogue.DeleteDocument(s, tenantId, d).value;
    forall d' | d' in after.documents ensures IndexedAsHead(after.generations, after.documents[d']) {
      HeadOwned(s.generations, d', s.documents[d'].activeGeneration);
      assert IndexedAsHead(s.generations, s.documents[d']);
    }
  }

  lemma NoHistoryYet(s: State, d: Id)
    requires GenerationsOwned(s) && d !in s.documents
    ensures Linear(s.generations, d, None)
  {
    assert IsLineage(s.generations, d, None, []);
  }

  lemma CreatedLineage(s: State, after: State, d: Id)
    requires LineageInv(s) && d !in s.documents
    requires after.generations == s.generations
    requires d in after.documents && after.documents == s.documents[d := after.documents[d]]
    requires after.documents[d].activeGeneration.None? && after.documents[d].indexedVersion.None?
    ensures LineageInv(after)
  {
    hide Linear, IndexedAsHead;
    NoHistoryYet(s, d);
    assert IndexedAsHead(after.generations, after.documents[d]) by { NothingIndexed(after.generations, after.documents[d]); }
    forall d' | d' in after.documents && d' != d
      ensures Linear(after.generations, d', after.documents[d'].activeGeneration)
      ensures IndexedAsHead(after.generations, after.documents[d'])
    {
      assert after.documents[d'] == s.documents[d'];
      assert Linear(s.generations, d', s.documents[d'].activeGeneration);
    }
  }

  lemma NothingIndexed(generations: map<Id, Generation>, row: Document)
    requires row.activeGeneration.None? && row.indexedVersion.None?
    ensures IndexedAsHead(generations, row)
  {
  }

  lemma SameLinear(s: State, after: State)
    requires AllLinear(s) && SameHistories(s, after)
    ensures AllLinear(after)
  {
  }

  lemma SameIndexed(s: State, after: State)
    requires GenerationsOwned(s) && AllIndexed(s) && SameHistories(s, after)
    ensures GenerationsOwned(after) && AllIndexed(after)
  {
  }

  lemma LineageInvStep(s: State, e: Event)
    requires LineageInv(s)
    ensures LineageInv(Next(s, e))
  {
    if e.Publish? {
      if Step(s, e).Ok? {
        PublishEffect(s, e.request, e.start, e.commit);
        PublishedLinear(s, Next(s, e), e.request.document.id, e.request.job.generationId.value);
        PublishedIndexed(s, Next(s, e), e.request.document.id, e.request.job.generationId.value);
        PublishedOwned(s, Next(s, e), e.request.document.id, e.request.job.generationId.value);
      }
    } else if e.DeleteDocument? {
      DeletedLinear(s, e.tenantId, e.d);
      DeletedOwned(s, e.tenantId, e.d);
      DeletedIndexed(s, e.tenantId, e.d);
    } else if e.CreateDocument? {
      if Step(s, e).Ok? {
        CreatedLineage(s, Next(s, e), e.d);
      }
    } else {
      HistoriesKept(s, e);
      SameLinear(s, Next(s, e));
      SameIndexed(s, Next(s, e));
    }
  }

  /** Main theorem: one linear history per document in every state of every run. */
  lemma {:induction false} LineageAlways(states: seq<State>, events: seq<Event>, k: nat)
    requires Run(states, events) && k < |states|
    ensures LineageInv(states[k])
  {
    if k == 0 {
      forall d | d in states[0].documents ensures Linear(states[0].generations, d, None) {
        assert IsLineage(states[0].generations, d, None, []);
      }
    } else {
      LineageAlways(states, events, k - 1);
      assert StepAt(states, events, k - 1);
      LineageInvStep(states[k - 1], events[k - 1]);
    }
  }

  lemma DistinctParents(generations: map<Id, Generation>, d: Id, head: Option<Id>, g: Id, h: Id)
    requires Linear(generations, d, head)
    requires g in generations && h in generations && g != h
    requires generations[g].documentId == d && generations[h].documentId == d
    ensures generations[g].parent != generations[h].parent
  {
    var chain :| IsLineage(generations, d, head, chain);
    assert g in chain && h in chain;
    var i :| 0 <= i < |chain| && chain[i] == g;
    var j :| 0 <= j < |chain| && chain[j] == h;
    assert Linked(generations, chain, i) && Linked(generations, chain, j);
    if 0 < i && 0 < j {
      assert chain[i - 1] != chain[j - 1];
    }
  }

  /** No two generations of a document share a parent, so there is also only one root. */
  lemma NoSharedParent(states: seq<State>, events: seq<Event>, k: nat, g: Id, h: Id)
    requires Run(states, events) && k < |states|
    requires g in states[k].generations && h in states[k].generations && g != h
    requires states[k].generations[g].documentId == states[k].generations[h].documentId
    ensures states[k].generations[g].parent != states[k].generations[h].parent
  {
    LineageAlways(states, events, k);
    var d := states[k].generations[g].documentId;
    DistinctParents(states[k].generations, d, states[k].documents[d].activeGeneration, g, h);
  }

  ghost predicate NotBehind(earlier: Option<nat>, later: Option<nat>) {
    earlier.Some? ==> later.Some? && earlier.value <= later.value
  }

  lemma VersionsAdvance(s: State, e: Event, d: Id)
    requires LineageInv(s) && d in s.documents && d in Next(s, e).documents
    ensures s.documents[d].version <= Next(s, e).documents[d].version
    ensures NotBehind(s.documents[d].indexedVersion, Next(s, e).documents[d].indexedVersion)
  {
    hide Linear, GenerationsOwned, Publication.Publish, Step;
    assert IndexedAsHead(s.generations, s.documents[d]);
    if e.Publish? {
      PublishAdvances(s, e, d);
    } else if e.DeleteDocument? || e.CreateDocument? {
      SurvivorKept(s, e, d);
    } else {
      HistoriesKept(s, e);
    }
  }

  lemma SurvivorKept(s: State, e: Event, d: Id)
    requires e.DeleteDocument? || e.CreateDocument?
    requires d in s.documents && d in Next(s, e).documents
    ensures Next(s, e).documents[d] == s.documents[d]
  {
  }

  lemma PublishAdvances(s: State, e: Event, d: Id)
    requires e.Publish? && d in s.documents && IndexedAsHead(s.generations, s.documents[d])
    ensures d in Next(s, e).documents && s.documents[d].version <= Next(s, e).documents[d].version
    ensures NotBehind(s.documents[d].indexedVersion, Next(s, e).documents[d].indexedVersion)
  {
    hide Publication.Publish;
    if Step(s, e).Ok? {
      PublishEffect(s, e.request, e.start, e.commit);
    }
  }

  ghost predicate Lives(states: seq<State>, d: Id, i: nat, k: nat)
    requires i <= k < |states|
  {
    forall m :: i <= m <= k ==> d in states[m].documents
  }

  lemma VersionsAdvanceAt(states: seq<State>, events: seq<Event>, k: nat, d: Id)
    requires Run(states, events) && k < |events|
    requires d in states[k].documents && d in states[k + 1].documents
    ensures states[k].documents[d].version <= states[k + 1].documents[d].version
    ensures NotBehind(states[k].documents[d].indexedVersion, states[k + 1].documents[d].indexedVersion)
  {
    LineageAlways(states, events, k);
    assert StepAt(states, events, k);
    VersionsAdvance(states[k], events[k], d);
  }

  /** While a document exists, neither its content version nor its indexed version ever decreases. */
  lemma {:induction false} VersionsNeverDecrease(states: seq<State>, events: seq<Event>, i: nat, k: nat, d: Id)
    requires Run(states, events) && i <= k < |states| && Lives(states, d, i, k)
    ensures states[i].documents[d].version <= states[k].documents[d].version
    ensures NotBehind(states[i].documents[d].indexedVersion, states[k].documents[d].indexedVersion)
    decreases k - i
  {
    if i < k {
      VersionsNeverDecrease(states, events, i, k - 1, d);
      VersionsAdvanceAt(states, events, k - 1, d);
    }
  }

  /** The indexed version is that of the head generation and never ahead of the content. */
  lemma IndexedVersionOfHead(states: seq<State>, events: seq<Event>, k: nat, d: Id)
    requires Run(states, events) && k < |states| && d in states[k].documents
    ensures IndexedAsHead(states[k].generations, states[k].documents[d])
  {
    LineageAlways(states, events, k);
  }

  /** A publication that succeeds describes the document's current content, and makes exactly that indexed. */
  lemma PublishedVersionIsCurrent(states: seq<State>, events: seq<Event>, k: nat)
    requires Run(states, events) && k < |events| && events[k].Publish? && Step(states[k], events[k]).Ok?
    ensures
      var r := events[k].request;
      && r.document.id in states[k].documents
      && r.document.id in states[k + 1].documents
      && var before, after := states[k].documents[r.document.id], states[k + 1].documents[r.document.id];
      && r.document.version == before.version
      && r.document.contentSha == Some(before.contentSha)
      && r.document.activeGeneration == before.activeGeneration
      && after.activeGeneration == r.job.generationId
      && after.indexedVersion == Some(after.version)
  {
    assert StepAt(states, events, k);
  }

  /** A job pinned to a content version that has been superseded never publishes, however often it runs. */
  lemma SupersededJobNeverPublishes(states: seq<State>, events: seq<Event>, superseded: nat, k: nat, read: Publication.Snapshot)
    requires Run(states, events) && superseded <= k < |events| && events[k].Publish?
    requires
      var r := events[k].request;
      && r.job.blobPath.Some?
      && r.job.version.Some?
      && r.job.version.value != 0
      && r.document == Publication.Pin(read, r.job)
      && Lives(states, r.document.id, superseded, k)
      && r.job.version.value < states[superseded].documents[r.document.id].version
    ensures Step(states[k], events[k]).Err? && states[k + 1] == states[k]
  {
    assert StepAt(states, events, k);
    VersionsNeverDecrease(states, events, superseded, k, events[k].request.document.id);
  }
}

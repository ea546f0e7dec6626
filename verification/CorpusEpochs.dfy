/** The corpus epoch of a tenant, and what an unchanged epoch says about the rows its searches see. */
module CorpusEpochs {
  import opened Prelude
  import opened IngestTables
  import opened IngestRuns
  import opened RetrievalView
  import Decimals
  import Catalogue
  import Publication
  import Visibility

  function Revision(s: State, key: ScopeKey): nat {
    if key in s.epochs then s.epochs[key] else 0
  }

  /** The pair of revisions a request compares: its tenant's and the global one. */
  function CorpusEpoch(s: State, tenantId: Id): string {
    Decimals.Pair(Revision(s, TenantKey(tenantId)), Revision(s, GlobalKey))
  }

  lemma SameEpochSameRevisions(a: State, b: State, tenantId: Id)
    requires CorpusEpoch(a, tenantId) == CorpusEpoch(b, tenantId)
    ensures Revision(a, TenantKey(tenantId)) == Revision(b, TenantKey(tenantId)) && Revision(a, GlobalKey) == Revision(b, GlobalKey)
  {
    Decimals.PairInjective(Revision(a, TenantKey(tenantId)), Revision(a, GlobalKey), Revision(b, TenantKey(tenantId)), Revision(b, GlobalKey));
  }

  /** The live rows a tenant's searches range over. */
  function TenantView(s: State, tenantId: Id): map<Id, VectorRow> {
    map c | c in View(s) && !View(s)[c].deleted && (View(s)[c].tenantId == tenantId || View(s)[c].scope == GlobalScope) :: View(s)[c]
  }

  /** The scope and permissions a search reads: those of the document row, if the row has one. */
  function CurrentPermissions(s: State, row: VectorRow): Permissions {
    if row.documentId in s.documents && s.documents[row.documentId].tenantId == row.tenantId
    then s.documents[row.documentId].permissions else row.payload.permissions
  }

  /** Exactly which rows a tenant sees, column by column, and with what: live rows that were not removed, that predate
      publication or belong to the document's active generation, of the tenant itself or of a global document. */
  lemma TenantViewMeans(s: State, tenantId: Id, c: Id)
    ensures c in TenantView(s, tenantId) <==>
              && c in s.vectors
              && var row := s.vectors[c];
                 var joined := row.documentId in s.documents && s.documents[row.documentId].tenantId == row.tenantId;
                 && !row.deleted
                 && !(row.documentId in s.deletedDocuments && s.deletedDocuments[row.documentId] == row.tenantId)
                 && (row.generationId.None? || (joined && s.documents[row.documentId].activeGeneration == row.generationId))
                 && (row.tenantId == tenantId || (if joined then s.documents[row.documentId].permissions.scope else row.scope) == GlobalScope)
    ensures c in TenantView(s, tenantId) ==>
              var row, shown := s.vectors[c], TenantView(s, tenantId)[c];
              && shown.tenantId == row.tenantId && shown.documentId == row.documentId && shown.embedding == row.embedding
              && shown.generationId == row.generationId && shown.payload.content == row.payload.content
              && shown.payload.documentId == row.payload.documentId && shown.payload.generationId == row.payload.generationId
              && shown.payload.permissions == CurrentPermissions(s, row)
              && (row.documentId in s.documents && s.documents[row.documentId].tenantId == row.tenantId ==>
                    shown.scope == s.documents[row.documentId].permissions.scope)
  {
    ViewByRow(s, tenantId, c);
  }

  /** Which scope's epoch a committed step advances. */
  function Commits(s: State, e: Event): Option<ScopeKey> {
    if Step(s, e).Err? then None
    else
      match e
      case UpdateContent(tenantId, d, _, _, scope, _, _, _) =>
        Some(if scope == GlobalScope || s.documents[d].permissions.scope == GlobalScope then GlobalKey else TenantKey(tenantId))
      case UpdateAccess(tenantId, d, _, scope) =>
        Some(if scope == GlobalScope || s.documents[d].permissions.scope == GlobalScope then GlobalKey else TenantKey(tenantId))
      case DeleteDocument(tenantId, d) =>
        if d in s.documents && s.documents[d].tenantId == tenantId then Some(EpochKey(s.documents[d].permissions.scope, tenantId)) else None
      case Publish(r, _, _) => Some(EpochKey(s.documents[r.document.id].permissions.scope, r.document.tenantId))
      case _ => None
  }

  lemma OtherStepsKeepEpochs(s: State, e: Event)
    requires !e.UpdateContent? && !e.UpdateAccess? && !e.DeleteDocument? && !e.Publish?
    ensures Next(s, e).epochs == s.epochs
  {
    if QueueStep(e) {
      QueueTouchesOnlyJobs(s, e);
    }
  }

  lemma CommitAdvancesEpoch(s: State, e: Event, key: ScopeKey)
    ensures Revision(Next(s, e), key) == Revision(s, key) + if Commits(s, e) == Some(key) then 1 else 0
  {
    if e.Publish? {
      PublishAdvancesEpoch(s, e, key);
    } else if e.DeleteDocument? {
      DeleteAdvancesEpoch(s, e, key);
    } else if !e.UpdateContent? && !e.UpdateAccess? {
      OtherStepsKeepEpochs(s, e);
    }
  }

  lemma PublishAdvancesEpoch(s: State, e: Event, key: ScopeKey)
    requires e.Publish?
    ensures Revision(Next(s, e), key) == Revision(s, key) + if Commits(s, e) == Some(key) then 1 else 0
  {
  }

  lemma DeleteAdvancesEpoch(s: State, e: Event, key: ScopeKey)
    requires e.DeleteDocument?
    ensures Revision(Next(s, e), key) == Revision(s, key) + if Commits(s, e) == Some(key) then 1 else 0
  {
  }

  /** No commit in the tenant's own scope or in the global one. */
  ghost predicate Quiet(s: State, e: Event, tenantId: Id) {
    Commits(s, e) != Some(TenantKey(tenantId)) && Commits(s, e) != Some(GlobalKey)
  }

  /** Whatever the tenant can see after the step it saw before, unchanged. */
  ghost predicate NothingNew(s: State, after: State, tenantId: Id) {
    forall c :: c in TenantView(after, tenantId) ==> c in TenantView(s, tenantId) && TenantView(after, tenantId)[c] == TenantView(s, tenantId)[c]
  }

  ghost predicate SameView(s: State, after: State, tenantId: Id) {
    TenantView(after, tenantId) == TenantView(s, tenantId)
  }

  /** The row's own share of the view, to compare states row by row. */
  function Shown(s: State, tenantId: Id, row: VectorRow): Option<VectorRow> {
    if Exposed(s, row) && !row.deleted && (row.tenantId == tenantId || Overlay(s, row).scope == GlobalScope)
    then Some(Overlay(s, row)) else None
  }

  lemma ViewByRow(s: State, tenantId: Id, c: Id)
    ensures c in TenantView(s, tenantId) <==> c in s.vectors && Shown(s, tenantId, s.vectors[c]).Some?
    ensures c in TenantView(s, tenantId) ==> Shown(s, tenantId, s.vectors[c]) == Some(TenantView(s, tenantId)[c])
  {
  }

  ghost predicate SameRow(s: State, after: State, tenantId: Id, c: Id) {
    && (c in TenantView(after, tenantId) <==> c in TenantView(s, tenantId))
    && (c in TenantView(s, tenantId) ==> TenantView(after, tenantId)[c] == TenantView(s, tenantId)[c])
  }

  lemma RowByRow(s: State, after: State, tenantId: Id)
    requires forall c :: SameRow(s, after, tenantId, c)
    ensures SameView(s, after, tenantId)
  {
    var before, now := TenantView(s, tenantId), TenantView(after, tenantId);
    assert forall c :: SameRow(s, after, tenantId, c) ==> (c in now <==> c in before);
    assert now.Keys == before.Keys;
    forall c | c in before ensures now[c] == before[c] {
      assert SameRow(s, after, tenantId, c);
    }
  }

  lemma SameShownSameView(s: State, after: State, tenantId: Id)
    requires after.vectors.Keys == s.vectors.Keys
    requires forall c :: c in s.vectors ==> Shown(after, tenantId, after.vectors[c]) == Shown(s, tenantId, s.vectors[c])
    ensures SameView(s, after, tenantId)
  {
    forall c ensures SameRow(s, after, tenantId, c) {
      ViewByRow(s, tenantId, c);
      ViewByRow(after, tenantId, c);
    }
    RowByRow(s, after, tenantId);
  }

  lemma SameTablesSameView(s: State, after: State, tenantId: Id)
    requires after.vectors == s.vectors && after.documents == s.documents && after.deletedDocuments == s.deletedDocuments
    ensures SameView(s, after, tenantId)
  {
    SameShownSameView(s, after, tenantId);
  }

  lemma TombstoneShowsNothingNew(s: State, owner: Id, d: Id, tenantId: Id)
    ensures NothingNew(s, Catalogue.TombstoneVectors(s, owner, d).value, tenantId)
  {
    var after := Catalogue.TombstoneVectors(s, owner, d).value;
    forall c | c in TenantView(after, tenantId)
      ensures c in TenantView(s, tenantId) && TenantView(after, tenantId)[c] == TenantView(s, tenantId)[c]
    {
      ViewByRow(s, tenantId, c);
      ViewByRow(after, tenantId, c);
      assert after.vectors[c] == s.vectors[c];
    }
  }

  lemma CreatedSameView(s: State, after: State, d: Id, tenantId: Id)
    requires Visibility.Created(s, after, d)
    ensures SameView(s, after, tenantId)
  {
    SameShownSameView(s, after, tenantId);
  }

  /** Changing one document of another tenant that is not global before or after changes nothing seen here. */
  lemma OtherDocumentSameView(s: State, after: State, d: Id, tenantId: Id)
    requires d in s.documents && d in after.documents
    requires after.documents == s.documents[d := after.documents[d]]
    requires after.vectors == s.vectors && after.deletedDocuments == s.deletedDocuments
    requires after.documents[d].tenantId == s.documents[d].tenantId != tenantId
    requires s.documents[d].permissions.scope == TenantScope && after.documents[d].permissions.scope == TenantScope
    requires after.documents[d].activeGeneration == s.documents[d].activeGeneration
    ensures SameView(s, after, tenantId)
  {
    SameShownSameView(s, after, tenantId);
  }

  lemma DeletedElsewhereSameView(s: State, owner: Id, d: Id, tenantId: Id)
    requires d in s.documents && s.documents[d].tenantId == owner != tenantId
    requires s.documents[d].permissions.scope == TenantScope && d !in s.deletedDocuments
    ensures SameView(s, Catalogue.DeleteDocument(s, owner, d).value, tenantId)
  {
    SameShownSameView(s, Catalogue.DeleteDocument(s, owner, d).value, tenantId);
  }

  lemma PublishedElsewhereSameView(s: State, after: State, r: Publication.Request, g: Id, tenantId: Id)
    requires Visibility.PublishedRows(s, after, r, g)
    requires r.document.tenantId != tenantId && s.documents[r.document.id].permissions.scope == TenantScope
    ensures SameView(s, after, tenantId)
  {
    forall c ensures SameRow(s, after, tenantId, c) {
      PublishedElsewhereSameRow(s, after, r, g, tenantId, c);
    }
    RowByRow(s, after, tenantId);
  }

  lemma NewRowElsewhere(s: State, after: State, r: Publication.Request, g: Id, tenantId: Id, c: Id)
    requires Visibility.RowsPublished(s, after, r, g) && c in after.vectors && c !in s.vectors
    ensures after.vectors[c].documentId == r.document.id && after.vectors[c].tenantId == r.document.tenantId
  {
    assert Visibility.ChunkIdIn(r.chunks, c);
  }

  lemma RowElsewhereHidden(s: State, tenantId: Id, row: VectorRow)
    requires Joined(s, row) && row.tenantId != tenantId && s.documents[row.documentId].permissions.scope == TenantScope
    ensures Shown(s, tenantId, row).None?
  {
  }

  lemma OtherRowSame(s: State, after: State, d: Id, tenantId: Id, row: VectorRow)
    requires d in s.documents && d in after.documents && after.documents == s.documents[d := after.documents[d]]
    requires after.deletedDocuments == s.deletedDocuments && after.documents[d].tenantId == s.documents[d].tenantId
    requires row.documentId != d || row.tenantId != s.documents[d].tenantId
    ensures Shown(after, tenantId, row) == Shown(s, tenantId, row)
  {
  }

  lemma PublishedElsewhereSameRow(s: State, after: State, r: Publication.Request, g: Id, tenantId: Id, c: Id)
    requires Visibility.PublishedRows(s, after, r, g)
    requires r.document.tenantId != tenantId && s.documents[r.document.id].permissions.scope == TenantScope
    ensures SameRow(s, after, tenantId, c)
  {
    ViewByRow(s, tenantId, c);
    ViewByRow(after, tenantId, c);
    var d := r.document.id;
    if c in after.vectors && c !in s.vectors {
      NewRowElsewhere(s, after, r, g, tenantId, c);
      RowElsewhereHidden(after, tenantId, after.vectors[c]);
    } else if c in s.vectors {
      var row := s.vectors[c];
      if row.documentId == d && row.tenantId == r.document.tenantId {
        RowElsewhereHidden(s, tenantId, row);
        RowElsewhereHidden(after, tenantId, after.vectors[c]);
      } else {
        OtherRowSame(s, after, d, tenantId, row);
      }
    }
  }

  lemma UpdateElsewhereSameView(s: State, e: Event, tenantId: Id)
    requires (e.UpdateContent? || e.UpdateAccess?) && Step(s, e).Ok? && Quiet(s, e, tenantId)
    ensures SameView(s, Next(s, e), tenantId)
  {
    hide SameView;
    OtherDocumentSameView(s, Next(s, e), e.d, tenantId);
  }

  /** A step without a commit in scope shows a tenant nothing new, and changes nothing it sees unless vectors
      are being tombstoned. */
  lemma QuietStep(s: State, e: Event, tenantId: Id)
    requires Visibility.LiveDocuments(s) && Fresh(s, e) && Quiet(s, e, tenantId)
    ensures if e.TombstoneVectors? then NothingNew(s, Next(s, e), tenantId) else SameView(s, Next(s, e), tenantId)
  {
    hide SameView, NothingNew, Publication.Publish;
    var after := Next(s, e);
    if e.TombstoneVectors? {
      TombstoneShowsNothingNew(s, e.tenantId, e.d, tenantId);
    } else if Step(s, e).Err? {
      SameTablesSameView(s, after, tenantId);
    } else if QueueStep(e) {
      QueueTouchesOnlyJobs(s, e);
      SameTablesSameView(s, after, tenantId);
    } else if e.CreateDocument? {
      Visibility.CreatedEffect(s, e);
      CreatedSameView(s, after, e.d, tenantId);
    } else if e.UpdateContent? || e.UpdateAccess? {
      UpdateElsewhereSameView(s, e, tenantId);
    } else if e.DeleteDocument? {
      if e.d in s.documents && s.documents[e.d].tenantId == e.tenantId {
        DeletedElsewhereSameView(s, e.tenantId, e.d, tenantId);
      } else {
        SameTablesSameView(s, after, tenantId);
      }
    } else {
      Visibility.PublishedEffect(s, e.request, e.start, e.commit);
      PublishedElsewhereSameView(s, after, e.request, e.request.job.generationId.value, tenantId);
    }
  }

  // ---------------------------------------------------------------- runs

  lemma {:induction false} RevisionsNeverDecrease(states: seq<State>, events: seq<Event>, i: nat, k: nat, key: ScopeKey)
    requires Run(states, events) && i <= k < |states|
    ensures Revision(states[i], key) <= Revision(states[k], key)
    decreases k - i
  {
    if i < k {
      RevisionsNeverDecrease(states, events, i, k - 1, key);
      assert StepAt(states, events, k - 1);
      CommitAdvancesEpoch(states[k - 1], events[k - 1], key);
    }
  }

  /** Equal epochs at two moments mean that nothing in scope committed in between. */
  lemma EqualEpochsNoCommit(states: seq<State>, events: seq<Event>, i: nat, m: nat, k: nat, tenantId: Id)
    requires Run(states, events) && i <= m < k < |states|
    requires CorpusEpoch(states[i], tenantId) == CorpusEpoch(states[k], tenantId)
    ensures Quiet(states[m], events[m], tenantId)
  {
    hide CorpusEpoch, Commits, Revision, Next, Init, Fresh;
    SameEpochSameRevisions(states[i], states[k], tenantId);
    assert StepAt(states, events, m);
    forall key | key == TenantKey(tenantId) || key == GlobalKey ensures Commits(states[m], events[m]) != Some(key) {
      RevisionsNeverDecrease(states, events, i, m, key);
      RevisionsNeverDecrease(states, events, m + 1, k, key);
      CommitAdvancesEpoch(states[m], events[m], key);
    }
  }

  /** While the epoch stands still a tenant sees nothing new: at most tombstoned rows have gone. */
  lemma {:induction false} EqualEpochsNothingNew(states: seq<State>, events: seq<Event>, i: nat, k: nat, tenantId: Id)
    requires Run(states, events) && Visibility.RunnerOnly(events) && i <= k < |states|
    requires CorpusEpoch(states[i], tenantId) == CorpusEpoch(states[k], tenantId)
    ensures NothingNew(states[i], states[k], tenantId)
    decreases k - i
  {
    hide Commits, Next, Init, Fresh, TenantView, Revision;
    if i < k {
      EqualEpochsNoCommit(states, events, i, k - 1, k, tenantId);
      assert StepAt(states, events, k - 1);
      CommitAdvancesEpoch(states[k - 1], events[k - 1], TenantKey(tenantId));
      CommitAdvancesEpoch(states[k - 1], events[k - 1], GlobalKey);
      EqualEpochsNothingNew(states, events, i, k - 1, tenantId);
      Visibility.VisibleAlways(states, events, k - 1);
      QuietStep(states[k - 1], events[k - 1], tenantId);
    }
  }

  /** The step that makes a row's document invisible. */
  function TombstoneOf(row: VectorRow): Event {
    TombstoneVectors(row.tenantId, row.documentId)
  }

  /** In any reachable state any row a tenant sees can go without the epoch moving: tombstoning its document is a step
      that hides it and commits nothing. */
  lemma VisibleRowsGoSilently(states: seq<State>, events: seq<Event>, tenantId: Id, c: Id)
    requires Run(states, events) && c in TenantView(states[|events|], tenantId)
    ensures
      var s := states[|events|];
      var e := TombstoneOf(s.vectors[c]);
      && Run(states + [Next(s, e)], events + [e])
      && CorpusEpoch(Next(s, e), tenantId) == CorpusEpoch(s, tenantId)
      && c !in TenantView(Next(s, e), tenantId)
  {
    hide Init, TenantView;
    var s := states[|events|];
    ViewByRow(s, tenantId, c);
    var e := TombstoneOf(s.vectors[c]);
    RunGoesOn(states, events, e);
    ViewByRow(Next(s, e), tenantId, c);
  }

  lemma RunGoesOn(states: seq<State>, events: seq<Event>, e: Event)
    requires Run(states, events) && Fresh(states[|events|], e)
    ensures Run(states + [Next(states[|events|], e)], events + [e])
  {
    hide Init, Next, Fresh;
    var longer, more := states + [Next(states[|events|], e)], events + [e];
    forall i | 0 <= i < |more| ensures StepAt(longer, more, i) {
      assert i < |events| ==> StepAt(states, events, i);
    }
  }

  /** A database with one searchable row, written before the first publication. */
  function OneRow(): State {
    var permissions := Permissions("owner", TenantWide, [], TenantScope);
    var row := VectorRow("tenant", "document", TenantScope, false, [], Payload("document", "text", permissions, 1, None, None), None);
    State(map["document" := Document("tenant", permissions, "blob", Sha256("text"), 1, None, None)],
          map[], map[], map["chunk" := row], map[], map[], map[], None, {})
  }

  /** Such states exist: equal epochs do not mean that everything seen before is still there. */
  lemma EqualEpochsSomethingGone() returns (states: seq<State>, events: seq<Event>)
    ensures Run(states, events) && |events| == 1
    ensures CorpusEpoch(states[1], "tenant") == CorpusEpoch(states[0], "tenant")
    ensures "chunk" in TenantView(states[0], "tenant") && "chunk" !in TenantView(states[1], "tenant")
  {
    hide CorpusEpoch;
    var s := OneRow();
    assert Init(s) && Run([s], []);
    ViewByRow(s, "tenant", "chunk");
    VisibleRowsGoSilently([s], [], "tenant", "chunk");
    var e := TombstoneOf(s.vectors["chunk"]);
    states, events := [s] + [Next(s, e)], [] + [e];
  }

  /** Stored rows never change, apart from being marked deleted. */
  ghost predicate RowsKept(s: State, after: State) {
    forall c :: c in s.vectors ==> c in after.vectors && after.vectors[c].(deleted := false) == s.vectors[c].(deleted := false)
  }

  lemma StepKeepsRows(s: State, e: Event)
    ensures RowsKept(s, Next(s, e))
  {
    if QueueStep(e) {
      QueueTouchesOnlyJobs(s, e);
    } else if e.Publish? {
      if Step(s, e).Ok? {
        Visibility.PublishRows(s, e.request, e.start, e.commit);
      }
    }
  }

  lemma {:induction false} RowsImmutable(states: seq<State>, events: seq<Event>, i: nat, k: nat)
    requires Run(states, events) && i <= k < |states|
    ensures RowsKept(states[i], states[k])
    decreases k - i
  {
    if i < k {
      RowsImmutable(states, events, i, k - 1);
      assert StepAt(states, events, k - 1);
      StepKeepsRows(states[k - 1], events[k - 1]);
    }
  }

  /** A chunk id that is visible at two moments carries the same text at both. */
  lemma VisibleTextImmutable(states: seq<State>, events: seq<Event>, i: nat, k: nat, tenantId: Id, c: Id)
    requires Run(states, events) && i <= k < |states|
    requires c in TenantView(states[i], tenantId) && c in TenantView(states[k], tenantId)
    ensures TenantView(states[k], tenantId)[c].payload.content == TenantView(states[i], tenantId)[c].payload.content
  {
    RowsImmutable(states, events, i, k);
  }
}

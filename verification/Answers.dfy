/** Answering a question while publications, deletions and invalidations interleave at any point. Every
    read of the database or of Redis happens at its own moment of one history; what the model says is arbitrary. */
module Answers {
  import opened Prelude
  import opened IngestTables
  import opened IngestRuns
  import opened CorpusEpochs
  import opened AnswerCache
  import opened EvidencePacking
  import opened RosterEvidence
  import Access
  import Visibility
  import RetrievalView

  datatype Question = Question(
    tenantId: Id, userId: Option<Id>, text: string, topK: nat, model: string, profileId: Id,
    access: Access.AccessFilter, cacheAllowed: bool)

  predicate UsesCache(q: Question) {
    q.cacheAllowed && q.access.documentIds.None? && q.userId.Some?
  }

  function ScopeName(scope: Scope): string {
    if scope == GlobalScope then "global" else "tenant"
  }

  function VisibilityName(visibility: IngestTables.Visibility): string {
    match visibility
    case Private => "private"
    case Shared => "shared"
    case TenantWide => "tenant"
  }

  /** A row of the retrieval view as the access rule reads it. */
  function AccessRow(row: VectorRow): Access.Row {
    var p := row.payload.permissions;
    Access.Row(row.documentId, ScopeName(row.scope),
               Access.Payload(Some(row.payload.documentId), Some(ScopeName(p.scope)), Some(p.ownerId),
                              Some(VisibilityName(p.visibility)), Some(p.aclUserIds)))
  }

  predicate Sees(q: Question, row: VectorRow) {
    && Access.Pushdown(q.access, AccessRow(row)) == Access.True
    && Access.Admits(q.access, AccessRow(row).payload)
  }

  /** The rows among `ids` that the caller can read now. */
  function Fetch(s: State, q: Question, ids: seq<Id>): map<Id, VectorRow> {
    map c | c in ids && c in TenantView(s, q.tenantId) && Sees(q, TenantView(s, q.tenantId)[c]) :: TenantView(s, q.tenantId)[c]
  }

  /** validate_sources: all of these distinct chunks are still published and permitted. */
  predicate ValidSources(s: State, q: Question, ids: seq<Id>) {
    && ids != []
    && Distinct(ids)
    && forall i :: 0 <= i < |ids| ==> ids[i] in TenantView(s, q.tenantId) && Sees(q, TenantView(s, q.tenantId)[ids[i]])
  }

  /** The caller may read the row: permission by permission. */
  predicate MayRead(q: Question, row: VectorRow) {
    var p := row.payload.permissions;
    && (q.access.documentIds.Some? ==> row.documentId in q.access.documentIds.value)
    && (|| q.access.role == Access.Admin || row.scope == GlobalScope || p.ownerId == q.access.userId
        || p.visibility == TenantWide || (p.visibility == Shared && q.access.userId in p.aclUserIds))
  }

  /** Owner, tenant, or one of those it is shared with. */
  predicate PersonMayRead(q: Question, p: Permissions) {
    p.ownerId == q.access.userId || p.visibility == TenantWide || (p.visibility == Shared && q.access.userId in p.aclUserIds)
  }

  /** Any row is asked twice: the query looks at its columns, and skips the permissions for a caller without a user id; the
      access rule looks at its payload. */
  lemma SeesExactly(q: Question, row: VectorRow)
    ensures Sees(q, row) <==>
              var p := row.payload.permissions;
              && (q.access.documentIds.Some? ==> row.documentId in q.access.documentIds.value && row.payload.documentId in q.access.documentIds.value)
              && (|| q.access.role == Access.Admin
                  || (&& (q.access.userId == "" || row.scope == GlobalScope || PersonMayRead(q, p))
                      && (p.scope == GlobalScope || PersonMayRead(q, p))))
  {
  }

  /** For rows whose columns agree with their payload, as those of published documents do. */
  lemma SeesMeans(q: Question, row: VectorRow)
    requires row.scope == row.payload.permissions.scope && row.documentId == row.payload.documentId
    requires q.access.role == Access.Admin || q.access.userId != ""
    ensures Sees(q, row) <==> MayRead(q, row)
  {
    Access.PushdownIsAccessRule(q.access, AccessRow(row));
  }

  /** The sources are valid exactly when they are distinct, some, and each is a row the tenant sees and the caller may read. */
  lemma ValidSourcesMean(s: State, q: Question, ids: seq<Id>)
    requires forall c :: c in TenantView(s, q.tenantId) ==>
               var row := TenantView(s, q.tenantId)[c];
               row.scope == row.payload.permissions.scope && row.documentId == row.payload.documentId
    requires q.access.role == Access.Admin || q.access.userId != ""
    ensures ValidSources(s, q, ids) <==>
              && ids != [] && (forall i, j :: 0 <= i < j < |ids| ==> ids[i] != ids[j])
              && forall i :: 0 <= i < |ids| ==> ids[i] in TenantView(s, q.tenantId) && MayRead(q, TenantView(s, q.tenantId)[ids[i]])
  {
    hide TenantView, Sees, MayRead;
    forall c | c in TenantView(s, q.tenantId) ensures Sees(q, TenantView(s, q.tenantId)[c]) <==> MayRead(q, TenantView(s, q.tenantId)[c]) {
      SeesMeans(q, TenantView(s, q.tenantId)[c]);
    }
  }

  /** What a model call returns: the answer and the sources it names, or an abstention. */
  datatype Reply = Reply(text: string, sources: seq<Id>, abstained: bool)

  /** Only answers that cite available sources, and at least one, are accepted. */
  function Used(reply: Reply, selected: seq<Id>): seq<Id> {
    if forall i :: 0 <= i < |reply.sources| ==> reply.sources[i] in selected then reply.sources else []
  }

  /** A reply is worth all of the sources it names, or none when one of them was not there to be named. */
  lemma UsedMeans(reply: Reply, selected: seq<Id>)
    ensures |Used(reply, selected)| > 0 <==> |reply.sources| > 0 && forall x :: x in reply.sources ==> x in selected
    ensures |Used(reply, selected)| > 0 ==> Used(reply, selected) == reply.sources
  {
  }

  /** The moments of the reads, in the order in which the program makes them. */
  datatype Moments = Moments(
    epoch: nat, hitTenantCounter: nat, hitAllCounter: nat, hit: nat, hitSources: nat,
    searches: seq<nat>, expand: nat, before: nat,
    retryEpoch: nat, retrySources: nat, reviewEpoch: nat, reviewSources: nat, repairEpoch: nat, repairSources: nat,
    finalEpoch: nat, finalSources: nat, usedSources: nat, putTenantCounter: nat, putAllCounter: nat, put: nat)

  predicate Ordered(m: Moments) {
    && m.epoch <= m.hitTenantCounter <= m.hitAllCounter <= m.hit <= m.hitSources <= m.expand <= m.before
    && (forall i :: 0 <= i < |m.searches| ==> m.hitSources <= m.searches[i] <= m.expand)
    && (forall i, j :: 0 <= i < j < |m.searches| ==> m.searches[i] <= m.searches[j])
    && m.before <= m.retryEpoch <= m.retrySources <= m.reviewEpoch <= m.reviewSources <= m.repairEpoch <= m.repairSources
    && m.repairSources <= m.finalEpoch <= m.finalSources <= m.usedSources
    && m.usedSources <= m.putTenantCounter <= m.putAllCounter <= m.put
  }

  /** Everything outside the program's control: the nearest cache entry, what each search and the expansion find, the order
      and the sections of what is kept of it, how lines and budgets are read, and the model's replies. */
  datatype Outside = Outside(
    nearest: Option<EntryKey>, found: seq<seq<Id>>, expanded: seq<Id>, ordered: seq<Id>, section: Id -> Option<string>,
    reader: Reader, packer: Packer,
    first: Reply, retry: Reply, multiPart: bool, review: Reply, missingQuotes: bool,
    allowGeneral: bool, general: Option<string>)

  datatype Answer =
    | Insufficient
    | General(text: string)
    | FromCache(payload: CachedAnswer)
    | Answered(text: string, used: seq<Id>, chunkIds: seq<Id>, contexts: seq<string>)

  // ---------------------------------------------------------------- what an answer guarantees

  /** No commit in the tenant's scope or the global scope from moment i to moment k. */
  ghost predicate QuietBetween(states: seq<State>, events: seq<Event>, i: nat, k: nat, tenantId: Id)
    requires |states| == |events| + 1 && k < |states|
  {
    forall m :: i <= m < k ==> Quiet(states[m], events[m], tenantId)
  }

  /** What is shown under these chunk ids is the evidence of a gathering, and in this state each chunk behind it is
      published, permitted to the caller, and reads as it was gathered. */
  ghost predicate RestsOn(s: State, q: Question, g: Gathering, chunkIds: seq<Id>, contexts: seq<string>) {
    && chunkIds == Ids(g.Evidence()) && contexts == Texts(g.Evidence())
    && forall p :: p in g.passages && p.id in chunkIds ==>
         ReadAt(s, q.tenantId, p) && Sees(q, TenantView(s, q.tenantId)[p.id])
  }

  ghost predicate AnswerHolds(states: seq<State>, events: seq<Event>, redis: seq<Redis>, q: Question, m: Moments, answer: Answer)
    requires |states| == |events| + 1 && |states| == |redis| && Ordered(m) && m.put < |states|
  {
    match answer
    case Insufficient => true
    case General(_) => true
    case Answered(_, used, chunkIds, contexts) =>
      && used != []
      && (forall x :: x in used ==> x in chunkIds)
      && QuietBetween(states, events, m.epoch, m.finalEpoch, q.tenantId)
      && NothingNew(states[m.epoch], states[m.finalEpoch], q.tenantId)
      && exists g: Gathering :: RestsOn(states[m.finalSources], q, g, chunkIds, contexts)
    case FromCache(payload) =>
      && payload.question == q.text
      && payload.topK == q.topK
      && payload.profileId == q.profileId
      && (exists g: Gathering :: RestsOn(states[m.hitSources], q, g, payload.chunkIds, payload.contexts))
      && exists read: nat ::
           && read <= m.hit
           && payload.epoch == CorpusEpoch(states[read], q.tenantId)
           && QuietBetween(states, events, read, m.epoch, q.tenantId)
           && QuietBetween(states, events, m.epoch, read, q.tenantId)
  }

  lemma EqualEpochsQuiet(states: seq<State>, events: seq<Event>, i: nat, k: nat, tenantId: Id)
    requires Run(states, events) && i < |states| && k < |states|
    requires CorpusEpoch(states[i], tenantId) == CorpusEpoch(states[k], tenantId)
    ensures QuietBetween(states, events, i, k, tenantId)
  {
    forall m | i <= m < k ensures Quiet(states[m], events[m], tenantId) {
      EqualEpochsNoCommit(states, events, i, m, k, tenantId);
    }
  }

  /** A passage that is visible again reads as before. */
  lemma PassageStays(states: seq<State>, events: seq<Event>, tenantId: Id, i: nat, k: nat, p: Passage)
    requires Run(states, events) && i <= k < |states| && ReadAt(states[i], tenantId, p) && p.id in TenantView(states[k], tenantId)
    ensures ReadAt(states[k], tenantId, p)
  {
    hide Run, RetrievalView.Exposed;
    RowsImmutable(states, events, i, k);
    ViewByRow(states[i], tenantId, p.id);
    ViewByRow(states[k], tenantId, p.id);
    OverlayKeeps(states[i], states[i].vectors[p.id]);
    OverlayKeeps(states[k], states[k].vectors[p.id]);
  }

  lemma OverlayKeeps(s: State, row: VectorRow)
    ensures
      var shown := RetrievalView.Overlay(s, row);
      && shown.payload.content == row.payload.content
      && shown.payload.documentId == row.payload.documentId && shown.payload.generationId == row.payload.generationId
  {
  }

  /** What was gathered earlier is what validation finds visible now. */
  lemma ValidatedCurrent(states: seq<State>, events: seq<Event>, q: Question, k: nat, g: Gathering, moments: seq<nat>, from: nat)
    requires Run(states, events) && k < |states| && AllReadBetween(states, q.tenantId, g.passages, moments, from, k)
    requires ValidSources(states[k], q, Ids(g.Evidence()))
    ensures RestsOn(states[k], q, g, Ids(g.Evidence()), Texts(g.Evidence()))
  {
    hide Run, TenantView, Sees, ReadAt;
    var chunkIds := Ids(g.Evidence());
    forall p | p in g.passages && p.id in chunkIds
      ensures ReadAt(states[k], q.tenantId, p) && p.id in TenantView(states[k], q.tenantId) && Sees(q, TenantView(states[k], q.tenantId)[p.id])
    {
      var i :| 0 <= i < |g.passages| && g.passages[i] == p;
      var c :| 0 <= c < |chunkIds| && chunkIds[c] == p.id;
      assert p.id in TenantView(states[k], q.tenantId) && Sees(q, TenantView(states[k], q.tenantId)[p.id]);
      PassageStays(states, events, q.tenantId, moments[i], k, p);
    }
  }

  /** Two passed rechecks make an answer over passages read in between a sound one. */
  lemma AnsweredHolds(states: seq<State>, events: seq<Event>, redis: seq<Redis>, q: Question, m: Moments,
                      text: string, used: seq<Id>, g: Gathering, moments: seq<nat>)
    requires Run(states, events) && Visibility.RunnerOnly(events) && |states| == |redis| && Ordered(m) && m.put < |states|
    requires AllReadBetween(states, q.tenantId, g.passages, moments, m.epoch, m.before)
    requires Unchanged(states, q, m.epoch, Ids(g.Evidence()), m.finalEpoch, m.finalSources)
    requires used != [] && forall x :: x in used ==> x in Ids(g.Evidence())
    ensures AnswerHolds(states, events, redis, q, m, Answered(text, used, Ids(g.Evidence()), Texts(g.Evidence())))
  {
    hide Run, Visibility.RunnerOnly, ReadAt, CorpusEpoch, ValidSources, NothingNew, QuietBetween, RestsOn;
    EqualEpochsQuiet(states, events, m.epoch, m.finalEpoch, q.tenantId);
    EqualEpochsNothingNew(states, events, m.epoch, m.finalEpoch, q.tenantId);
    ValidatedCurrent(states, events, q, m.finalSources, g, moments, m.epoch);
  }

  /** In every reachable state the rows of a published document carry the same permissions in their columns
      and in their payload, so the pushed-down condition and the access rule agree on them. */
  lemma PublishedRowsConsistent(states: seq<State>, events: seq<Event>, k: nat, d: Id, c: Id, access: Access.AccessFilter)
    requires Run(states, events) && Visibility.RunnerOnly(events) && k < |states|
    requires d in states[k].documents && states[k].documents[d].activeGeneration.Some?
    requires c in RetrievalView.Searchable(states[k], states[k].documents[d].tenantId, d)
    requires access.role == Access.Admin || access.userId != ""
    ensures
      var row := AccessRow(RetrievalView.Searchable(states[k], states[k].documents[d].tenantId, d)[c]);
      Access.Consistent(row) && (Access.Pushdown(access, row) == Access.True <==> Access.Admits(access, row.payload))
  {
    Visibility.PublishedDocumentsShowOneGeneration(states, events, k, d);
    var s := states[k];
    var rows := RetrievalView.Searchable(s, s.documents[d].tenantId, d);
    var generation := s.generations[s.documents[d].activeGeneration.value];
    assert Visibility.ChunkIdIn(generation.chunks, c);
    var i :| 0 <= i < |generation.chunks| && generation.chunks[i].id == c;
    assert Visibility.RowOf(rows[c], s.documents[d].activeGeneration.value, generation, generation.chunks[i]);
    Access.PushdownIsAccessRule(access, AccessRow(rows[c]));
  }

  // ---------------------------------------------------------------- the program

  /** The nearest entry may be served: it matches the counters read, its payload fits this request, and its sources
      are still valid. */
  predicate Serves(states: seq<State>, redis: seq<Redis>, q: Question, m: Moments, nearest: Option<EntryKey>)
    requires |states| == |redis| && Ordered(m) && m.put < |states|
  {
    && UsesCache(q) && nearest.Some? && nearest.value in redis[m.hit].entries
    && var entry := redis[m.hit].entries[nearest.value];
    && Matches(entry, q.tenantId, q.userId.value, q.model,
               TenantCounter(redis[m.hitTenantCounter], q.tenantId) + redis[m.hitAllCounter].allCounter)
    && entry.payload.schemaVersion == CITATION_SCHEMA_VERSION
    && entry.payload.epoch == CorpusEpoch(states[m.epoch], q.tenantId)
    && entry.payload.profileId == q.profileId && entry.payload.question == q.text && entry.payload.topK == q.topK
    && ValidSources(states[m.hitSources], q, entry.payload.chunkIds)
  }

  /** Exactly which entry is served, field by field: one stored for this tenant, this user and this model, under the sum of the
      two counters as they were read, for this question, size and profile and under the epoch read, and all its sources are
      still valid. An entry of another user is never served. */
  lemma ServesExactlyWhen(states: seq<State>, redis: seq<Redis>, q: Question, m: Moments, nearest: Option<EntryKey>)
    requires |states| == |redis| && Ordered(m) && m.put < |states|
    ensures Serves(states, redis, q, m, nearest) <==>
              && q.cacheAllowed && q.access.documentIds == None && q.userId.Some?
              && nearest.Some? && nearest.value in redis[m.hit].entries
              && ServedEntry(states, redis, q, m, redis[m.hit].entries[nearest.value])
  {
  }

  predicate ServedEntry(states: seq<State>, redis: seq<Redis>, q: Question, m: Moments, entry: Entry)
    requires |states| == |redis| && Ordered(m) && m.put < |states|
  {
    && q.userId == Some(entry.userId) && entry.tenantId == q.tenantId && entry.model == q.model
    && entry.generation == (if q.tenantId in redis[m.hitTenantCounter].tenantCounters then redis[m.hitTenantCounter].tenantCounters[q.tenantId] else 0)
                           + redis[m.hitAllCounter].allCounter
    && entry.payload.question == q.text && entry.payload.topK == q.topK && entry.payload.profileId == q.profileId
    && entry.payload.schemaVersion == 15 && entry.payload.epoch == CorpusEpoch(states[m.epoch], q.tenantId)
    && ValidSources(states[m.hitSources], q, entry.payload.chunkIds)
  }

  /** The lookup: a hit is used exactly when it may be served. */
  method Lookup(ghost events: seq<Event>, states: seq<State>, redis: seq<Redis>, q: Question, m: Moments, outside: Outside)
    returns (hit: Option<CachedAnswer>)
    requires Run(states, events) && RedisRun(states, redis) && Ordered(m) && m.put < |states|
    ensures hit.Some? <==> Serves(states, redis, q, m, outside.nearest)
    ensures hit.Some? ==> hit.value == redis[m.hit].entries[outside.nearest.value].payload
    ensures hit.Some? ==> AnswerHolds(states, events, redis, q, m, FromCache(hit.value))
  {
    if !UsesCache(q) || outside.nearest.None? || outside.nearest.value !in redis[m.hit].entries {
      return None;
    }
    var generation := TenantCounter(redis[m.hitTenantCounter], q.tenantId) + redis[m.hitAllCounter].allCounter;
    var entry := redis[m.hit].entries[outside.nearest.value];
    if !Matches(entry, q.tenantId, q.userId.value, q.model, generation) {
      return None;
    }
    var payload := entry.payload;
    if && payload.schemaVersion == CITATION_SCHEMA_VERSION
       && payload.epoch == CorpusEpoch(states[m.epoch], q.tenantId)
       && payload.profileId == q.profileId
       && payload.question == q.text
       && payload.topK == q.topK
       && ValidSources(states[m.hitSources], q, payload.chunkIds)
    {
      ServedHolds(states, events, redis, q, m, outside.nearest.value);
      return Some(payload);
    }
    return None;
  }

  lemma ServedHolds(states: seq<State>, events: seq<Event>, redis: seq<Redis>, q: Question, m: Moments, nearest: EntryKey)
    requires Run(states, events) && RedisRun(states, redis) && Ordered(m) && m.put < |states|
    requires Serves(states, redis, q, m, Some(nearest))
    ensures AnswerHolds(states, events, redis, q, m, FromCache(redis[m.hit].entries[nearest].payload))
  {
    var payload := redis[m.hit].entries[nearest].payload;
    var o := EntriesHaveOrigins(states, redis, m.hit, nearest);
    EqualEpochsQuiet(states, events, o.epoch, m.epoch, q.tenantId);
    EqualEpochsQuiet(states, events, m.epoch, o.epoch, q.tenantId);
    ValidatedCurrent(states, events, q, m.hitSources, o.gathering, o.moments, o.epoch);
  }

  /** The check repeated before every further model call and before the answer is returned. */
  predicate Unchanged(states: seq<State>, q: Question, epoch: nat, selected: seq<Id>, epochAt: nat, sourcesAt: nat)
    requires epoch < |states| && epochAt < |states| && sourcesAt < |states|
  {
    CorpusEpoch(states[epochAt], q.tenantId) == CorpusEpoch(states[epoch], q.tenantId) && ValidSources(states[sourcesAt], q, selected)
  }

  /** The first reply names no usable source without abstaining, so the model is asked again. */
  predicate Retries(outside: Outside, selected: seq<Id>) {
    Used(outside.first, selected) == [] && !outside.first.abstained
  }

  /** The rechecks that this exchange with the model makes, all passed. */
  predicate Rechecked(states: seq<State>, q: Question, m: Moments, outside: Outside, selected: seq<Id>)
    requires Ordered(m) && m.put < |states|
  {
    && (Retries(outside, selected) ==> Unchanged(states, q, m.epoch, selected, m.retryEpoch, m.retrySources))
    && (outside.multiPart ==> Unchanged(states, q, m.epoch, selected, m.reviewEpoch, m.reviewSources))
    && (outside.missingQuotes ==> Unchanged(states, q, m.epoch, selected, m.repairEpoch, m.repairSources))
    && Unchanged(states, q, m.epoch, selected, m.finalEpoch, m.finalSources)
  }

  function LastReply(outside: Outside, selected: seq<Id>): Reply {
    if outside.multiPart then outside.review else if Retries(outside, selected) then outside.retry else outside.first
  }

  /** A failed recheck of the exchange that is written to the trace; the one before a review is not. */
  predicate Noted(states: seq<State>, q: Question, m: Moments, outside: Outside, selected: seq<Id>)
    requires Ordered(m) && m.put < |states|
  {
    || (Retries(outside, selected) && !Unchanged(states, q, m.epoch, selected, m.retryEpoch, m.retrySources))
    || (&& (outside.multiPart ==> Unchanged(states, q, m.epoch, selected, m.reviewEpoch, m.reviewSources))
        && (|| (outside.missingQuotes && !Unchanged(states, q, m.epoch, selected, m.repairEpoch, m.repairSources))
            || !Unchanged(states, q, m.epoch, selected, m.finalEpoch, m.finalSources)))
  }

  /** Calls the model up to three times over the same evidence: there is a reply exactly when every recheck passes, and
      it is the last one. */
  method Generate(states: seq<State>, q: Question, m: Moments, outside: Outside, selected: seq<Id>)
    returns (reply: Option<Reply>, noted: bool)
    requires Ordered(m) && m.put < |states|
    ensures reply == if Rechecked(states, q, m, outside, selected) then Some(LastReply(outside, selected)) else None
    ensures noted <==> Noted(states, q, m, outside, selected)
  {
    hide Unchanged;
    var current := outside.first;
    if Used(current, selected) == [] && !current.abstained {
      if !Unchanged(states, q, m.epoch, selected, m.retryEpoch, m.retrySources) {
        return None, true;
      }
      current := outside.retry;
    }
    if outside.multiPart {
      if !Unchanged(states, q, m.epoch, selected, m.reviewEpoch, m.reviewSources) {
        return None, false;
      }
      current := outside.review;
    }
    if outside.missingQuotes {
      if !Unchanged(states, q, m.epoch, selected, m.repairEpoch, m.repairSources) {
        return None, true;
      }
    }
    if !Unchanged(states, q, m.epoch, selected, m.finalEpoch, m.finalSources) {
      return None, true;
    }
    return Some(current), false;
  }

  /** The first search that could read the chunk. */
  function FirstRead(states: seq<State>, q: Question, moments: seq<nat>, found: seq<seq<Id>>, c: Id): (at: Option<nat>)
    requires forall i :: 0 <= i < |moments| ==> moments[i] < |states|
    ensures at.Some? ==> at.value in moments && c in TenantView(states[at.value], q.tenantId)
                         && Sees(q, TenantView(states[at.value], q.tenantId)[c])
  {
    if moments == [] || found == [] then None
    else if c in Fetch(states[moments[0]], q, found[0]) then Some(moments[0])
    else FirstRead(states, q, moments[1..], found[1..], c)
  }

  /** When the chunk was read: by the first search that could, else by the expansion. */
  function ReadMoment(states: seq<State>, q: Question, m: Moments, outside: Outside, c: Id): (at: Option<nat>)
    requires Ordered(m) && m.put < |states|
    ensures at.Some? ==> m.hitSources <= at.value <= m.expand && c in TenantView(states[at.value], q.tenantId)
                         && Sees(q, TenantView(states[at.value], q.tenantId)[c])
  {
    var searched := FirstRead(states, q, m.searches, outside.found, c);
    if searched.Some? then searched
    else if c in Fetch(states[m.expand], q, outside.expanded) then Some(m.expand)
    else None
  }

  function PassageAt(s: State, q: Question, outside: Outside, c: Id): Passage
    requires c in TenantView(s, q.tenantId)
  {
    var row := TenantView(s, q.tenantId)[c];
    Passage(c, row.payload.content, Source(row.payload.documentId, row.payload.generationId, outside.section(c)))
  }

  /** The passages of these chunks, as far as they could be read. */
  function PassagesOf(states: seq<State>, q: Question, m: Moments, outside: Outside, ids: seq<Id>): seq<Passage>
    requires Ordered(m) && m.put < |states|
  {
    if ids == [] then []
    else
      var c := ids[|ids| - 1];
      var at := ReadMoment(states, q, m, outside, c);
      PassagesOf(states, q, m, outside, ids[..|ids| - 1])
      + if at.Some? then [PassageAt(states[at.value], q, outside, c)] else []
  }

  lemma PassagesStep(states: seq<State>, q: Question, m: Moments, outside: Outside, ids: seq<Id>, i: nat)
    requires Ordered(m) && m.put < |states| && i < |ids|
    ensures
      var at := ReadMoment(states, q, m, outside, ids[i]);
      PassagesOf(states, q, m, outside, ids[..i + 1])
      == PassagesOf(states, q, m, outside, ids[..i]) + if at.Some? then [PassageAt(states[at.value], q, outside, ids[i])] else []
  {
    hide ReadMoment, PassageAt, Ordered;
    assert ids[..i + 1][..i] == ids[..i];
  }

  /** Without neighbours nothing is rearranged. */
  function ReaderOf(states: seq<State>, q: Question, m: Moments, outside: Outside): Reader
    requires Ordered(m) && m.put < |states|
  {
    if Fetch(states[m.expand], q, outside.expanded) == map[] then outside.reader.(lists := (header: string) => false)
    else outside.reader
  }

  /** What is gathered for a question. */
  function Gathered(states: seq<State>, q: Question, m: Moments, outside: Outside): Gathering
    requires Ordered(m) && m.put < |states|
  {
    Gathering(PassagesOf(states, q, m, outside, outside.ordered), ReaderOf(states, q, m, outside), outside.packer)
  }

  /** The chunks of the evidence. */
  function Selected(states: seq<State>, q: Question, m: Moments, outside: Outside): seq<Id>
    requires Ordered(m) && m.put < |states|
  {
    Ids(Gathered(states, q, m, outside).Evidence())
  }

  lemma PassageRead(s: State, q: Question, outside: Outside, c: Id)
    requires c in TenantView(s, q.tenantId)
    ensures ReadAt(s, q.tenantId, PassageAt(s, q, outside, c))
  {
  }

  /** The passages: what each search, or else the expansion, could read, in the order that was chosen. */
  method Retrieve(states: seq<State>, q: Question, m: Moments, outside: Outside)
    returns (g: Gathering, evidence: seq<Passage>, ghost moments: seq<nat>)
    requires Ordered(m) && m.put < |states|
    ensures g == Gathered(states, q, m, outside) && evidence == g.Evidence()
    ensures AllReadBetween(states, q.tenantId, g.passages, moments, m.epoch, m.before)
  {
    var passages: seq<Passage> := [];
    moments := [];
    for i := 0 to |outside.ordered|
      invariant passages == PassagesOf(states, q, m, outside, outside.ordered[..i])
      invariant AllReadBetween(states, q.tenantId, passages, moments, m.epoch, m.before)
    {
      hide TenantView, ReadAt, PassagesOf, ReadMoment, PassageAt, Sees;
      var c := outside.ordered[i];
      PassagesStep(states, q, m, outside, outside.ordered, i);
      var at := ReadMoment(states, q, m, outside, c);
      if at.Some? {
        PassageRead(states[at.value], q, outside, c);
        passages, moments := passages + [PassageAt(states[at.value], q, outside, c)], moments + [at.value];
      }
    }
    assert outside.ordered[..|outside.ordered|] == outside.ordered;
    g := Gathering(passages, ReaderOf(states, q, m, outside), outside.packer);
    evidence := Gather(g);
  }

  /** An answer is given over the evidence: there is some, it is valid before the first call, every recheck passes, and
      the last reply rests on sources that are still valid. */
  predicate Answers(states: seq<State>, q: Question, m: Moments, outside: Outside)
    requires Ordered(m) && m.put < |states|
  {
    var selected := Selected(states, q, m, outside);
    && selected != [] && ValidSources(states[m.before], q, selected)
    && Rechecked(states, q, m, outside, selected)
    && var used := Used(LastReply(outside, selected), selected);
    && used != [] && ValidSources(states[m.usedSources], q, used)
  }

  /** Why there is no answer is written to the trace as a change. */
  predicate ChangeNoted(states: seq<State>, q: Question, m: Moments, outside: Outside)
    requires Ordered(m) && m.put < |states|
  {
    var selected := Selected(states, q, m, outside);
    selected != [] && (!ValidSources(states[m.before], q, selected) || Noted(states, q, m, outside, selected))
  }

  /** Instead of no answer a general one is allowed, unless documents were selected or a change was noted. */
  predicate AllowsGeneral(states: seq<State>, q: Question, m: Moments, outside: Outside)
    requires Ordered(m) && m.put < |states|
  {
    outside.allowGeneral && q.access.documentIds.None? && outside.general.Some? && !ChangeNoted(states, q, m, outside)
  }

  lemma RecheckedLast(states: seq<State>, q: Question, m: Moments, outside: Outside, selected: seq<Id>)
    requires Ordered(m) && m.put < |states| && Rechecked(states, q, m, outside, selected)
    ensures Unchanged(states, q, m.epoch, selected, m.finalEpoch, m.finalSources)
  {
    hide Unchanged;
  }

  lemma UsedAreSelected(reply: Reply, selected: seq<Id>)
    ensures forall x :: x in Used(reply, selected) ==> x in selected
  {
  }

  /** From the evidence to an answer, or to none. */
  method Conclude(ghost events: seq<Event>, states: seq<State>, ghost redis: seq<Redis>, q: Question, m: Moments, outside: Outside,
                  ghost g: Gathering, evidence: seq<Passage>, ghost moments: seq<nat>)
    returns (answer: Answer, noted: bool)
    requires Run(states, events) && Visibility.RunnerOnly(events) && RedisRun(states, redis)
    requires Ordered(m) && m.put < |states|
    requires g == Gathered(states, q, m, outside) && evidence == g.Evidence()
    requires AllReadBetween(states, q.tenantId, g.passages, moments, m.epoch, m.before)
    ensures (answer.Insufficient? || answer.Answered?) && AnswerHolds(states, events, redis, q, m, answer)
    ensures answer.Answered? <==> Answers(states, q, m, outside)
    ensures noted <==> ChangeNoted(states, q, m, outside)
    ensures answer.Answered? ==>
              var selected := Selected(states, q, m, outside);
              && answer.text == LastReply(outside, selected).text && answer.used == Used(LastReply(outside, selected), selected)
              && answer.chunkIds == selected && answer.contexts == Texts(evidence)
  {
    hide Serves, Rechecked, ValidSources, Gathered, AnswerHolds, Used, Unchanged, ReadAt, LastReply, Noted, Gathering.Evidence;
    answer, noted := Insufficient, false;
    assert AnswerHolds(states, events, redis, q, m, Insufficient) by { InsufficientHolds(states, events, redis, q, m); }
    var selected := Ids(evidence);
    if selected == [] {
      return;
    }
    if !ValidSources(states[m.before], q, selected) {
      return Insufficient, true;
    }
    var reply;
    reply, noted := Generate(states, q, m, outside, selected);
    if reply.None? {
      return;
    }
    var used := Used(reply.value, selected);
    if used == [] || !ValidSources(states[m.usedSources], q, used) {
      return;
    }
    RecheckedLast(states, q, m, outside, selected);
    UsedAreSelected(reply.value, selected);
    AnsweredHolds(states, events, redis, q, m, reply.value.text, used, g, moments);
    answer := Answered(reply.value.text, used, selected, Texts(evidence));
  }

  lemma InsufficientHolds(states: seq<State>, events: seq<Event>, redis: seq<Redis>, q: Question, m: Moments)
    requires |states| == |events| + 1 && |states| == |redis| && Ordered(m) && m.put < |states|
    ensures AnswerHolds(states, events, redis, q, m, Insufficient)
    ensures forall text: string :: AnswerHolds(states, events, redis, q, m, General(text))
  {
  }

  /** Main theorem: whatever commits, deletions and invalidations interleave with these reads, an answer is
      given as answered only if nothing in scope committed between the epoch read and the last epoch check and
      what it shows rests on chunks that are published, permitted and unchanged at the last source check; a cached answer
      only if nothing committed between its own epoch read and this one; and only such answers are stored. */
  method AnswerQuery(ghost events: seq<Event>, states: seq<State>, redis: seq<Redis>, q: Question, m: Moments, outside: Outside)
    returns (answer: Answer, stored: Option<Entry>)
    requires Run(states, events) && Visibility.RunnerOnly(events) && RedisRun(states, redis)
    requires Ordered(m) && m.put < |states|
    ensures AnswerHolds(states, events, redis, q, m, answer)
    ensures answer.FromCache? <==> Serves(states, redis, q, m, outside.nearest)
    ensures answer.FromCache? ==>
              && outside.nearest.Some? && outside.nearest.value in redis[m.hit].entries
              && var entry := redis[m.hit].entries[outside.nearest.value];
                 answer.payload == entry.payload && ServedEntry(states, redis, q, m, entry)
    ensures answer.Answered? <==> !Serves(states, redis, q, m, outside.nearest) && Answers(states, q, m, outside)
    ensures answer.General? <==>
              && !Serves(states, redis, q, m, outside.nearest) && !Answers(states, q, m, outside)
              && AllowsGeneral(states, q, m, outside)
    ensures answer.General? ==> Some(answer.text) == outside.general
    ensures answer.Answered? ==>
              var selected := Selected(states, q, m, outside);
              var reply := LastReply(outside, selected);
              && answer.text == reply.text && answer.used == Used(reply, selected)
              && answer.chunkIds == selected && answer.contexts == Texts(Gathered(states, q, m, outside).Evidence())
    ensures stored.Some? <==> answer.Answered? && UsesCache(q)
    ensures stored.Some? ==>
              && stored.value.payload.chunkIds == answer.chunkIds
              && stored.value.payload.contexts == answer.contexts
              && exists o: Origin :: o.epoch == m.epoch && HasOrigin(states, redis, m.put, stored.value, o)
  {
    hide Serves, ServedEntry, Answers, Gathered, AnswerHolds, ReadAt, LastReply, Used, ChangeNoted, Gathering.Evidence;
    answer, stored := Insufficient, None;
    ServesExactlyWhen(states, redis, q, m, outside.nearest);
    var hit := Lookup(events, states, redis, q, m, outside);
    if hit.Some? {
      answer := FromCache(hit.value);
      return;
    }
    ghost var moments;
    var g, evidence, noted;
    g, evidence, moments := Retrieve(states, q, m, outside);
    answer, noted := Conclude(events, states, redis, q, m, outside, g, evidence, moments);
    if answer.Answered? && UsesCache(q) {
      stored := NewEntry(states, redis, q, m, answer.text, g, evidence, moments);
    }
    if answer.Insufficient? && outside.allowGeneral && q.access.documentIds.None? && !noted && outside.general.Some? {
      InsufficientHolds(states, events, redis, q, m);
      answer := General(outside.general.value);
    }
  }

  /** What is put into the cache, under the generation read after the answer was accepted. */
  method NewEntry(states: seq<State>, redis: seq<Redis>, q: Question, m: Moments, text: string,
                  ghost g: Gathering, evidence: seq<Passage>, ghost moments: seq<nat>) returns (stored: Option<Entry>)
    requires |states| == |redis| && Ordered(m) && m.put < |states| && q.userId.Some?
    requires evidence == g.Evidence() && AllReadBetween(states, q.tenantId, g.passages, moments, m.epoch, m.before)
    ensures stored.Some?
    ensures stored.value.payload.chunkIds == Ids(evidence) && stored.value.payload.contexts == Texts(evidence)
    ensures stored.value.tenantId == q.tenantId && stored.value.userId == q.userId.value && stored.value.model == q.model
    ensures stored.value.payload.question == q.text && stored.value.payload.topK == q.topK
    ensures stored.value.payload.profileId == q.profileId && stored.value.payload.text == text
    ensures HasOrigin(states, redis, m.put, stored.value, Origin(m.epoch, g, moments, m.putTenantCounter, m.putAllCounter))
  {
    hide Gathering.Evidence, ReadAt;
    var generation := TenantCounter(redis[m.putTenantCounter], q.tenantId) + redis[m.putAllCounter].allCounter;
    var payload := CachedAnswer(CITATION_SCHEMA_VERSION, CorpusEpoch(states[m.epoch], q.tenantId), q.profileId, q.text, q.topK,
                                Ids(evidence), Texts(evidence), text);
    stored := Some(Entry(q.tenantId, q.userId.value, q.model, generation, payload));
  }

  /** A change that is noticed before a review leaves no trace, so it withholds the answer but not a general one. */
  lemma ReviewChangeUnnoted(states: seq<State>, q: Question, m: Moments, outside: Outside)
    requires Ordered(m) && m.put < |states|
    requires
      var selected := Selected(states, q, m, outside);
      && ValidSources(states[m.before], q, selected) && !Retries(outside, selected)
      && outside.multiPart && !Unchanged(states, q, m.epoch, selected, m.reviewEpoch, m.reviewSources)
    ensures !Answers(states, q, m, outside) && !ChangeNoted(states, q, m, outside)
  {
    hide Unchanged, Gathered;
  }

  // ---------------------------------------------------------------- nothing is withheld without a reason

  /** From moment i to moment k nothing in scope commits and no vectors are tombstoned. */
  ghost predicate Undisturbed(states: seq<State>, events: seq<Event>, i: nat, k: nat, tenantId: Id)
    requires |states| == |events| + 1 && k < |states|
  {
    forall n :: i <= n < k ==> Quiet(states[n], events[n], tenantId) && !events[n].TombstoneVectors?
  }

  lemma {:induction false} UndisturbedView(states: seq<State>, events: seq<Event>, i: nat, k: nat, tenantId: Id)
    requires Run(states, events) && Visibility.RunnerOnly(events) && i <= k < |states|
    requires Undisturbed(states, events, i, k, tenantId)
    ensures SameView(states[i], states[k], tenantId)
    ensures CorpusEpoch(states[i], tenantId) == CorpusEpoch(states[k], tenantId)
    decreases k - i
  {
    hide Next, Init, Fresh, TenantView, Commits;
    if i < k {
      UndisturbedView(states, events, i, k - 1, tenantId);
      assert StepAt(states, events, k - 1);
      assert Quiet(states[k - 1], events[k - 1], tenantId);
      CommitAdvancesEpoch(states[k - 1], events[k - 1], TenantKey(tenantId));
      CommitAdvancesEpoch(states[k - 1], events[k - 1], GlobalKey);
      Visibility.VisibleAlways(states, events, k - 1);
      QuietStep(states[k - 1], events[k - 1], tenantId);
    }
  }

  /** The passages are of those chunks that could be read, each once. */
  lemma {:induction false} PassagesOnce(states: seq<State>, q: Question, m: Moments, outside: Outside, ids: seq<Id>)
    requires Ordered(m) && m.put < |states| && Distinct(ids)
    ensures Distinct(Ids(PassagesOf(states, q, m, outside, ids)))
    ensures forall p :: p in PassagesOf(states, q, m, outside, ids) ==>
              p.id in ids && ReadMoment(states, q, m, outside, p.id).Some?
  {
    hide ReadMoment, Ordered, TenantView, Fetch;
    if ids != [] {
      var front, c := ids[..|ids| - 1], ids[|ids| - 1];
      assert ids == front + [c];
      PassagesOnce(states, q, m, outside, front);
      var before, all := PassagesOf(states, q, m, outside, front), PassagesOf(states, q, m, outside, ids);
      forall a, b | 0 <= a < b < |all| ensures Ids(all)[a] != Ids(all)[b] {
        assert before[a] in before;
        assert b < |before| ==> Ids(before)[a] != Ids(before)[b];
      }
    }
  }

  lemma SameViewTwice(a: State, b: State, c: State, tenantId: Id)
    requires SameView(a, b, tenantId) && SameView(a, c, tenantId)
    ensures SameView(b, c, tenantId)
  {
  }

  lemma GatheredRead(states: seq<State>, q: Question, m: Moments, outside: Outside, x: Id)
    requires Ordered(m) && m.put < |states| && Distinct(outside.ordered) && x in Selected(states, q, m, outside)
    ensures ReadMoment(states, q, m, outside, x).Some?
  {
    hide ReadMoment, PassagesOf, ReaderOf, Gathering.Evidence, Shows, Ordered;
    var g := Gathered(states, q, m, outside);
    IdsOf(g.Evidence());
    var e :| e in g.Evidence() && e.id == x;
    var p := EvidenceShows(g, e);
    PassagesOnce(states, q, m, outside, outside.ordered);
    assert p.id == x by { ShowsId(e, p, g.reader); }
  }

  lemma ShowsId(e: Passage, p: Passage, r: Reader)
    requires Shows(e, p, r)
    ensures e.id == p.id
  {
  }

  /** Evidence read while nothing is disturbed stays valid. */
  lemma EvidenceStaysValid(states: seq<State>, events: seq<Event>, q: Question, m: Moments, outside: Outside, k: nat)
    requires Run(states, events) && Visibility.RunnerOnly(events) && Ordered(m) && m.put < |states|
    requires m.expand <= k <= m.usedSources && Undisturbed(states, events, m.epoch, m.usedSources, q.tenantId)
    requires Distinct(outside.ordered) && Selected(states, q, m, outside) != []
    ensures ValidSources(states[k], q, Selected(states, q, m, outside))
    ensures CorpusEpoch(states[k], q.tenantId) == CorpusEpoch(states[m.epoch], q.tenantId)
  {
    hide TenantView, CorpusEpoch, SameView, Run, Visibility.RunnerOnly, Quiet, PassagesOf, ReaderOf, Gathering.Evidence, Sees;
    var selected := Selected(states, q, m, outside);
    PassagesOnce(states, q, m, outside, outside.ordered);
    EvidenceDistinct(Gathered(states, q, m, outside));
    UndisturbedView(states, events, m.epoch, k, q.tenantId);
    forall x | x in selected ensures x in TenantView(states[k], q.tenantId) && Sees(q, TenantView(states[k], q.tenantId)[x]) {
      GatheredRead(states, q, m, outside, x);
      var at := ReadMoment(states, q, m, outside, x).value;
      UndisturbedView(states, events, m.epoch, at, q.tenantId);
      SameViewTwice(states[m.epoch], states[at], states[k], q.tenantId);
      StillVisible(states[at], states[k], q, x);
    }
  }

  lemma StillVisible(s: State, later: State, q: Question, x: Id)
    requires SameView(s, later, q.tenantId) && x in TenantView(s, q.tenantId) && Sees(q, TenantView(s, q.tenantId)[x])
    ensures x in TenantView(later, q.tenantId) && Sees(q, TenantView(later, q.tenantId)[x])
  {
  }

  /** The converse of the main theorem: while nothing in scope commits and nothing is tombstoned, an answer over some
      evidence is given whenever the last reply names sources of it. */
  lemma AnsweredWhenUndisturbed(states: seq<State>, events: seq<Event>, q: Question, m: Moments, outside: Outside)
    requires Run(states, events) && Visibility.RunnerOnly(events) && Ordered(m) && m.put < |states|
    requires Undisturbed(states, events, m.epoch, m.usedSources, q.tenantId) && Distinct(outside.ordered)
    requires
      var selected := Selected(states, q, m, outside);
      var used := Used(LastReply(outside, selected), selected);
      used != [] && Distinct(used)
    ensures Answers(states, q, m, outside)
  {
    hide Selected, TenantView, CorpusEpoch, Undisturbed, Run, Visibility.RunnerOnly;
    var selected := Selected(states, q, m, outside);
    var used := Used(LastReply(outside, selected), selected);
    assert used[0] in selected;
    forall k | m.expand <= k <= m.usedSources
      ensures ValidSources(states[k], q, selected) && CorpusEpoch(states[k], q.tenantId) == CorpusEpoch(states[m.epoch], q.tenantId)
    {
      EvidenceStaysValid(states, events, q, m, outside, k);
    }
    PartStaysValid(states[m.usedSources], q, selected, used);
  }

  lemma PartStaysValid(s: State, q: Question, selected: seq<Id>, used: seq<Id>)
    requires ValidSources(s, q, selected) && used != [] && Distinct(used) && forall i :: 0 <= i < |used| ==> used[i] in selected
    ensures ValidSources(s, q, used)
  {
    forall i | 0 <= i < |used| ensures used[i] in TenantView(s, q.tenantId) && Sees(q, TenantView(s, q.tenantId)[used[i]]) {
      var k :| 0 <= k < |selected| && selected[k] == used[i];
    }
  }
}

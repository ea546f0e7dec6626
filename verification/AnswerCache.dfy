/** The semantic answer cache: entries tagged with a generation that is the sum of two counters, each read
    on its own, and a payload that records the corpus epoch it was built under. */
module AnswerCache {
  import opened EvidencePacking
  import opened IngestTables
  import opened RosterEvidence
  import CorpusEpochs

  const CITATION_SCHEMA_VERSION: nat := 15

  datatype CachedAnswer = CachedAnswer(
    schemaVersion: nat, epoch: string, profileId: Id, question: string, topK: nat,
    chunkIds: seq<Id>, contexts: seq<string>, text: string)

  datatype Entry = Entry(tenantId: Id, userId: Id, model: string, generation: nat, payload: CachedAnswer)

  /** Exact re-asks overwrite; the question part of the key is its hash together with the model. */
  datatype EntryKey = EntryKey(tenantId: Id, userId: Id, question: Digest)

  datatype Redis = Redis(tenantCounters: map<Id, nat>, allCounter: nat, entries: map<EntryKey, Entry>)

  function TenantCounter(r: Redis, tenantId: Id): nat {
    if tenantId in r.tenantCounters then r.tenantCounters[tenantId] else 0
  }

  function InvalidateTenant(r: Redis, tenantId: Id): Redis {
    r.(tenantCounters := r.tenantCounters[tenantId := TenantCounter(r, tenantId) + 1])
  }

  function InvalidateAll(r: Redis): Redis {
    r.(allCounter := r.allCounter + 1)
  }

  function Store(r: Redis, key: EntryKey, entry: Entry): Redis {
    r.(entries := r.entries[key := entry])
  }

  /** The filter of a lookup that read the two counters as this generation. */
  predicate Matches(entry: Entry, tenantId: Id, userId: Id, model: string, generation: nat) {
    entry.tenantId == tenantId && entry.userId == userId && entry.model == model && entry.generation == generation
  }

  // ---------------------------------------------------------------- histories

  /** Where an entry's parts were read: the epoch, each passage, and the two counters. What the entry shows is the evidence
      gathered from the passages. */
  datatype Origin = Origin(epoch: nat, gathering: Gathering, moments: seq<nat>, tenantCounter: nat, allCounter: nat)

  ghost predicate HasOrigin(states: seq<State>, redis: seq<Redis>, k: nat, entry: Entry, o: Origin)
    requires |states| == |redis| && k < |states|
  {
    && o.epoch <= o.tenantCounter <= o.allCounter <= k
    && entry.payload.epoch == CorpusEpochs.CorpusEpoch(states[o.epoch], entry.tenantId)
    && entry.payload.chunkIds == Ids(o.gathering.Evidence())
    && entry.payload.contexts == Texts(o.gathering.Evidence())
    && AllReadBetween(states, entry.tenantId, o.gathering.passages, o.moments, o.epoch, o.tenantCounter)
    && entry.generation == TenantCounter(redis[o.tenantCounter], entry.tenantId) + redis[o.allCounter].allCounter
  }

  /** The tenant could read the passage: this text under this chunk id, of this document and generation. */
  ghost predicate ReadAt(s: State, tenantId: Id, p: Passage) {
    && p.id in CorpusEpochs.TenantView(s, tenantId)
    && var row := CorpusEpochs.TenantView(s, tenantId)[p.id];
       && row.payload.content == p.text
       && row.payload.documentId == p.source.documentId && row.payload.generationId == p.source.generationId
  }

  /** Each passage was read at its own moment, none before the one and none after the other. */
  ghost predicate AllReadBetween(states: seq<State>, tenantId: Id, passages: seq<Passage>, moments: seq<nat>, from: nat, to: nat)
    requires to < |states|
  {
    && |passages| == |moments|
    && forall i :: 0 <= i < |moments| ==> from <= moments[i] <= to && ReadAt(states[moments[i]], tenantId, passages[i])
  }

  /** One command of Redis: a counter goes up, an answer is stored, or an entry expires. */
  ghost predicate RedisStep(states: seq<State>, redis: seq<Redis>, i: nat)
    requires |states| == |redis| && i + 1 < |states|
  {
    || redis[i + 1] == redis[i]
    || (exists tenantId :: redis[i + 1] == InvalidateTenant(redis[i], tenantId))
    || redis[i + 1] == InvalidateAll(redis[i])
    || (exists key, entry, o :: redis[i + 1] == Store(redis[i], key, entry) && HasOrigin(states, redis, i, entry, o))
    || (exists key :: redis[i + 1] == redis[i].(entries := redis[i].entries - {key}))
  }

  ghost predicate RedisRun(states: seq<State>, redis: seq<Redis>) {
    && |states| == |redis|
    && |redis| > 0
    && redis[0].entries == map[]
    && forall i :: 0 <= i < |redis| - 1 ==> RedisStep(states, redis, i)
  }

  lemma CountersRise(states: seq<State>, redis: seq<Redis>, i: nat, tenantId: Id)
    requires |states| == |redis| && i + 1 < |states| && RedisStep(states, redis, i)
    ensures TenantCounter(redis[i], tenantId) <= TenantCounter(redis[i + 1], tenantId)
    ensures redis[i].allCounter <= redis[i + 1].allCounter
  {
  }

  lemma {:induction false} CountersNeverFall(states: seq<State>, redis: seq<Redis>, i: nat, k: nat, tenantId: Id)
    requires RedisRun(states, redis) && i <= k < |redis|
    ensures TenantCounter(redis[i], tenantId) <= TenantCounter(redis[k], tenantId)
    ensures redis[i].allCounter <= redis[k].allCounter
    decreases k - i
  {
    if i < k {
      CountersNeverFall(states, redis, i, k - 1, tenantId);
      assert RedisStep(states, redis, k - 1);
      CountersRise(states, redis, k - 1, tenantId);
    }
  }

  /** Every entry ever found in the cache was put together by the answer path. */
  lemma {:induction false} EntriesHaveOrigins(states: seq<State>, redis: seq<Redis>, k: nat, key: EntryKey) returns (o: Origin)
    requires RedisRun(states, redis) && k < |redis| && key in redis[k].entries
    ensures HasOrigin(states, redis, k, redis[k].entries[key], o)
    decreases k
  {
    hide HasOrigin;
    assert RedisStep(states, redis, k - 1);
    if key in redis[k - 1].entries && redis[k].entries[key] == redis[k - 1].entries[key] {
      o := EntriesHaveOrigins(states, redis, k - 1, key);
      OriginStays(states, redis, k - 1, redis[k].entries[key], o);
    } else {
      var key', entry, o' :| redis[k] == Store(redis[k - 1], key', entry) && HasOrigin(states, redis, k - 1, entry, o');
      o := o';
      OriginStays(states, redis, k - 1, entry, o);
    }
  }

  lemma OriginStays(states: seq<State>, redis: seq<Redis>, k: nat, entry: Entry, o: Origin)
    requires |states| == |redis| && k + 1 < |states| && HasOrigin(states, redis, k, entry, o)
    ensures HasOrigin(states, redis, k + 1, entry, o)
  {
    hide AllReadBetween, CorpusEpochs.CorpusEpoch, Ids, Texts;
  }

  /** The step advances the counter of this tenant, or the one shared by all. */
  ghost predicate Invalidates(redis: seq<Redis>, j: nat, tenantId: Id)
    requires j + 1 < |redis|
  {
    redis[j + 1] == InvalidateTenant(redis[j], tenantId) || redis[j + 1] == InvalidateAll(redis[j])
  }

  lemma OriginGeneration(states: seq<State>, redis: seq<Redis>, k: nat, entry: Entry, o: Origin)
    requires |states| == |redis| && k < |states| && HasOrigin(states, redis, k, entry, o)
    ensures o.tenantCounter <= o.allCounter <= k
    ensures entry.generation == TenantCounter(redis[o.tenantCounter], entry.tenantId) + redis[o.allCounter].allCounter
  {
    hide AllReadBetween, CorpusEpochs.CorpusEpoch, Ids, Texts;
  }

  /** Main theorem: an entry whose counters were read before an invalidation never matches a lookup whose
      counter reads both follow it, although each side reads its two counters at different moments. */
  lemma InvalidatedEntriesNeverMatch(states: seq<State>, redis: seq<Redis>, k: nat, entry: Entry, o: Origin, j: nat,
                                     lookupTenant: nat, lookupAll: nat, userId: Id, model: string)
    requires RedisRun(states, redis) && k < |redis| && HasOrigin(states, redis, k, entry, o)
    requires j + 1 < |redis| && Invalidates(redis, j, entry.tenantId)
    requires o.tenantCounter <= j && o.allCounter <= j
    requires j < lookupTenant < |redis| && j < lookupAll < |redis|
    ensures !Matches(entry, entry.tenantId, userId, model,
                     TenantCounter(redis[lookupTenant], entry.tenantId) + redis[lookupAll].allCounter)
  {
    hide HasOrigin, RedisStep;
    OriginGeneration(states, redis, k, entry, o);
    hide RedisRun;
    CountersNeverFall(states, redis, o.tenantCounter, j, entry.tenantId);
    CountersNeverFall(states, redis, o.allCounter, j, entry.tenantId);
    CountersNeverFall(states, redis, j + 1, lookupTenant, entry.tenantId);
    CountersNeverFall(states, redis, j + 1, lookupAll, entry.tenantId);
  }
}

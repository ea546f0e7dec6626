/** When a question is answered, in terms of the single reads and replies: which chunks are read and when, which checks are
    made, and which failures leave a trace. */
module AnswerDecisions {
  import opened Answers
  import opened CorpusEpochs
  import opened IngestTables
  import opened Prelude
  import opened RosterEvidence

  // ---------------------------------------------------------------- what is read

  /** The tenant sees the chunk in this state, and the caller may read it. */
  predicate Readable(s: State, q: Question, c: Id) {
    c in TenantView(s, q.tenantId) && Sees(q, TenantView(s, q.tenantId)[c])
  }

  /** Search i finds the chunk and can read it. */
  predicate ReadBy(states: seq<State>, q: Question, m: Moments, outside: Outside, c: Id, i: nat)
    requires Ordered(m) && m.put < |states|
  {
    i < |m.searches| && i < |outside.found| && c in outside.found[i] && Readable(states[m.searches[i]], q, c)
  }

  lemma {:induction false} FirstReadMeans(states: seq<State>, q: Question, moments: seq<nat>, found: seq<seq<Id>>, c: Id)
    returns (i: nat)
    requires forall k :: 0 <= k < |moments| ==> moments[k] < |states|
    ensures FirstRead(states, q, moments, found, c).Some? ==>
              && i < |moments| && i < |found| && c in found[i] && Readable(states[moments[i]], q, c)
              && FirstRead(states, q, moments, found, c) == Some(moments[i])
    ensures forall k: nat :: k < |moments| && k < |found| && c in found[k] && Readable(states[moments[k]], q, c) ==>
              FirstRead(states, q, moments, found, c).Some? && i <= k
    decreases |moments|
  {
    hide TenantView, Sees;
    i := 0;
    if moments != [] && found != [] && !(c in found[0] && Readable(states[moments[0]], q, c)) {
      assert c !in Fetch(states[moments[0]], q, found[0]);
      i := FirstReadMeans(states, q, moments[1..], found[1..], c);
      forall k: nat | k < |moments| && k < |found| && c in found[k] && Readable(states[moments[k]], q, c)
        ensures FirstRead(states, q, moments, found, c).Some? && i + 1 <= k
      {
        assert moments[1..][k - 1] == moments[k] && found[1..][k - 1] == found[k];
      }
      i := i + 1;
    }
  }

  /** A chunk is read by the first search that finds it and can read it, else by the expansion if that can, else not at all. */
  lemma ReadMomentMeans(states: seq<State>, q: Question, m: Moments, outside: Outside, c: Id)
    requires Ordered(m) && m.put < |states|
    ensures
      var at := ReadMoment(states, q, m, outside, c);
      if exists i: nat :: ReadBy(states, q, m, outside, c, i) then
        exists i: nat :: ReadBy(states, q, m, outside, c, i) && at == Some(m.searches[i]) && forall k: nat :: ReadBy(states, q, m, outside, c, k) ==> i <= k
      else at == if c in outside.expanded && Readable(states[m.expand], q, c) then Some(m.expand) else None
  {
    hide TenantView, Sees, FirstRead;
    var i := FirstReadMeans(states, q, m.searches, outside.found, c);
    if FirstRead(states, q, m.searches, outside.found, c).Some? {
      assert ReadBy(states, q, m, outside, c, i);
    }
    assert forall k: nat :: ReadBy(states, q, m, outside, c, k) ==> FirstRead(states, q, m.searches, outside.found, c).Some?;
  }

  /** The passage of a chunk, field by field. */
  predicate IsPassage(p: Passage, s: State, q: Question, outside: Outside, c: Id) {
    && c in TenantView(s, q.tenantId)
    && var payload := TenantView(s, q.tenantId)[c].payload;
       && p.id == c && p.text == payload.content && p.source.documentId == payload.documentId
       && p.source.generationId == payload.generationId && p.source.section == outside.section(c)
  }

  /** What is gathered: the passages of the chosen chunks that could be read, in the chosen order; without neighbours nothing
      counts as a roster. */
  lemma GatheredMeans(states: seq<State>, q: Question, m: Moments, outside: Outside)
    requires Ordered(m) && m.put < |states|
    ensures
      var g := Gathered(states, q, m, outside);
      && g.packer == outside.packer
      && g.reader == (if exists c :: c in outside.expanded && Readable(states[m.expand], q, c) then outside.reader
                      else outside.reader.(lists := (header: string) => false))
      && g.passages == PassagesOf(states, q, m, outside, outside.ordered)
  {
    hide TenantView, Sees;
    var fetched := Fetch(states[m.expand], q, outside.expanded);
    assert forall c :: c in fetched <==> c in outside.expanded && Readable(states[m.expand], q, c);
    if c :| c in outside.expanded && Readable(states[m.expand], q, c) {
      assert fetched != map[];
    }
  }

  lemma PassagesMean(states: seq<State>, q: Question, m: Moments, outside: Outside, ids: seq<Id>, c: Id)
    requires Ordered(m) && m.put < |states|
    ensures
      var before, after := PassagesOf(states, q, m, outside, ids), PassagesOf(states, q, m, outside, ids + [c]);
      var at := ReadMoment(states, q, m, outside, c);
      && PassagesOf(states, q, m, outside, []) == []
      && (at == None ==> after == before)
      && (at != None ==> |after| == |before| + 1 && after[..|before|] == before && IsPassage(after[|before|], states[at.value], q, outside, c))
  {
    hide TenantView, ReadMoment, Ordered;
    assert (ids + [c])[..|ids|] == ids;
  }

  // ---------------------------------------------------------------- the checks

  /** The epoch read here is the one that was read first, and the sources are valid here. */
  predicate Checked(states: seq<State>, q: Question, m: Moments, ids: seq<Id>, epochAt: nat, sourcesAt: nat)
    requires m.epoch < |states| && epochAt < |states| && sourcesAt < |states|
  {
    CorpusEpoch(states[epochAt], q.tenantId) == CorpusEpoch(states[m.epoch], q.tenantId) && ValidSources(states[sourcesAt], q, ids)
  }

  /** The reply names sources, all of them of the evidence. */
  predicate Grounded(reply: Reply, ids: seq<Id>) {
    |reply.sources| > 0 && forall x :: x in reply.sources ==> x in ids
  }

  /** The model is asked again when its first reply is neither grounded nor an abstention. */
  predicate Again(outside: Outside, ids: seq<Id>) {
    !Grounded(outside.first, ids) && !outside.first.abstained
  }

  function Final(outside: Outside, ids: seq<Id>): Reply {
    if outside.multiPart then outside.review else if Again(outside, ids) then outside.retry else outside.first
  }

  /** Exactly when a question is answered from what was gathered: there is evidence, it is valid before the first call, the
      epoch and the sources are checked again before a repetition, before a review, before a repair and at the end, and the last
      reply is grounded in sources that are still valid. */
  lemma AnswersExactlyWhen(states: seq<State>, q: Question, m: Moments, outside: Outside)
    requires Ordered(m) && m.put < |states|
    ensures
      var ids := Selected(states, q, m, outside);
      var reply := Final(outside, ids);
      Answers.Answers(states, q, m, outside) <==>
        && |ids| > 0 && ValidSources(states[m.before], q, ids)
        && (Again(outside, ids) ==> Checked(states, q, m, ids, m.retryEpoch, m.retrySources))
        && (outside.multiPart ==> Checked(states, q, m, ids, m.reviewEpoch, m.reviewSources))
        && (outside.missingQuotes ==> Checked(states, q, m, ids, m.repairEpoch, m.repairSources))
        && Checked(states, q, m, ids, m.finalEpoch, m.finalSources)
        && Grounded(reply, ids) && ValidSources(states[m.usedSources], q, reply.sources)
    ensures
      var ids := Selected(states, q, m, outside);
      LastReply(outside, ids) == Final(outside, ids) && (Grounded(Final(outside, ids), ids) ==> Used(Final(outside, ids), ids) == Final(outside, ids).sources)
  {
    hide ValidSources, Selected, Used;
    var ids := Selected(states, q, m, outside);
    UsedMeans(outside.first, ids);
    UsedMeans(LastReply(outside, ids), ids);
  }

  /** Exactly when a change is written to the trace: there is evidence, and it is not valid before the first call, or the first
      of the later checks to fail is not the one before a review. */
  lemma NotedExactlyWhen(states: seq<State>, q: Question, m: Moments, outside: Outside)
    requires Ordered(m) && m.put < |states|
    ensures
      var ids := Selected(states, q, m, outside);
      var retry := Again(outside, ids) && !Checked(states, q, m, ids, m.retryEpoch, m.retrySources);
      var review := outside.multiPart && !Checked(states, q, m, ids, m.reviewEpoch, m.reviewSources);
      var repair := outside.missingQuotes && !Checked(states, q, m, ids, m.repairEpoch, m.repairSources);
      var last := !Checked(states, q, m, ids, m.finalEpoch, m.finalSources);
      ChangeNoted(states, q, m, outside) <==>
        |ids| > 0 && (!ValidSources(states[m.before], q, ids) || retry || (!review && (repair || last)))
  {
    hide ValidSources, Selected, Used;
    UsedMeans(outside.first, Selected(states, q, m, outside));
  }

  /** A general answer may stand in for none when it is asked for and there is one, no documents were selected, and no change
      was noted. */
  lemma GeneralExactlyWhen(states: seq<State>, q: Question, m: Moments, outside: Outside)
    requires Ordered(m) && m.put < |states|
    ensures AllowsGeneral(states, q, m, outside) <==>
              outside.allowGeneral && outside.general != None && q.access.documentIds == None && !ChangeNoted(states, q, m, outside)
  {
    hide ChangeNoted;
  }
}

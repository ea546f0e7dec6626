/** What the migration commands do: an undisturbed migration from its first step to the switch, and what each step writes. */
module MigrationEffects {
  import opened Prelude
  import opened ShadowTables
  import Migration

  // ---------------------------------------------------------------- a whole migration

  /** Every row once, and a vector of the new dimension for each. */
  ghost predicate Embeds(rows: map<Id, Row>, order: seq<Id>, vectors: seq<Vector>, profile: Profile) {
    && |order| == |vectors|
    && (forall c :: c in order <==> c in rows)
    && (forall i, j :: 0 <= i < j < |order| ==> order[i] != order[j])
    && (forall i :: 0 <= i < |vectors| ==> |vectors[i]| == profile.dimensions)
  }

  /** The corpus is recorded as it is, column by column, but for the embeddings. */
  lemma PrintMeans(rows: map<Id, Row>, other: map<Id, Row>)
    ensures CorpusPrint(rows) == CorpusPrint(other) <==>
              && (forall c :: c in rows <==> c in other)
              && forall c :: c in rows && c in other ==> rows[c].base == other[c].base && rows[c].profile == other[c].profile
  {
    var a, b := CorpusPrint(rows), CorpusPrint(other);
    assert forall c :: c in a ==> a[c] == Printed(rows[c].base, rows[c].profile);
    assert forall c :: c in b ==> b[c] == Printed(other[c].base, other[c].profile);
    if a == b {
      assert a.Keys == rows.Keys && b.Keys == other.Keys;
      forall c | c in rows && c in other ensures rows[c].base == other[c].base && rows[c].profile == other[c].profile {
        assert a[c] == b[c];
      }
    }
  }

  /** First step: refused for more than 2000 dimensions or a used name; else an empty table of the profile's dimension, a
      record of the corpus, and all rows still to be embedded. */
  lemma StartWrites(s: State, name: Id, profile: Profile)
    ensures
      var step := StartBuild(s, name, profile);
      if profile.dimensions > 2000 then step == Err(TooManyDimensions)
      else if name in s.tables || name in s.migrations then step == Err(NameTaken)
      else
        && step.Ok?
        && step.value == s.(tables := s.tables[name := Table(profile.dimensions, map[])],
                            migrations := s.migrations[name := ShadowTables.Migration(CorpusPrint(s.active.rows), profile, Building, None)],
                            builds := s.builds[name := Build(profile, s.active.rows, s.active.rows.Keys)])
  {
  }

  /** The rows that a batch adds: the columns as the build read them, the new profile, and each its own vector. */
  predicate Embedded(after: map<Id, Row>, build: Build, batch: seq<Id>, vectors: seq<Vector>)
    requires |batch| == |vectors|
  {
    forall i :: 0 <= i < |batch| ==>
      && batch[i] in build.rows && batch[i] in after
      && after[batch[i]] == Row(build.rows[batch[i]].base, Some(build.profile), vectors[i])
  }

  /** A batch is taken exactly when it names rows still to be embedded, each once, with a vector of the right dimension. */
  lemma BatchWrites(s: State, name: Id, batch: seq<Id>, vectors: seq<Vector>)
    ensures
      var step := AddBatch(s, name, batch, vectors);
      if name !in s.builds || name !in s.tables then step == Err(NotReady)
      else
        var build, table := s.builds[name], s.tables[name];
        if (&& |vectors| == |batch|
            && (forall i :: 0 <= i < |batch| ==> batch[i] in build.pending && batch[i] in build.rows)
            && (forall i, j :: 0 <= i < j < |batch| ==> batch[i] != batch[j])
            && (forall i :: 0 <= i < |vectors| ==> |vectors[i]| == build.profile.dimensions))
        then
          && step.Ok?
          && var after := step.value;
             && name in after.tables && name in after.builds
             && after == s.(tables := s.tables[name := after.tables[name]], builds := s.builds[name := after.builds[name]])
             && after.tables[name].dimensions == table.dimensions
             && (forall c :: c in after.tables[name].rows <==> c in table.rows || c in batch)
             && (forall c :: c in table.rows && c !in batch ==> after.tables[name].rows[c] == table.rows[c])
             && Embedded(after.tables[name].rows, build, batch, vectors)
             && after.builds[name].profile == build.profile && after.builds[name].rows == build.rows
             && (forall c :: c in after.builds[name].pending <==> c in build.pending && c !in batch)
        else step == Err(BadVectors)
  {
    hide InsertBatch;
    if name in s.builds && name in s.tables && GoodBatch(s.builds[name], batch, vectors) {
      Migration.BatchRows(s.tables[name].rows, s.builds[name], batch, vectors);
    }
  }

  /** Last step of a build: refused while rows are pending, else the migration is ready with the table as it stands. */
  lemma FinishWrites(s: State, name: Id)
    ensures
      var step := FinishBuild(s, name);
      if name in s.builds && name in s.tables && name in s.migrations && s.builds[name].pending == {} then
        step == Ok(s.(migrations := s.migrations[name := ShadowTables.Migration(
                                      s.migrations[name].fingerprint, s.migrations[name].profile, Ready, Some(s.tables[name].rows))],
                      builds := s.builds - {name}))
      else step == Err(NotReady)
  {
  }

  /** The switch: its checks in order, and everything it writes. */
  lemma ActivationWrites(s: State, name: Id, previous: Id)
    ensures
      var step := Activate(s, name, previous);
      if name !in s.migrations || s.migrations[name].stage != Ready || name !in s.tables then step == Err(NotReady)
      else
        var migration, table := s.migrations[name], s.tables[name];
        if migration.target != Some(table.rows) then step == Err(IntegrityMismatch)
        else if table.dimensions != migration.profile.dimensions then step == Err(DimensionMismatch)
        else if CorpusPrint(s.active.rows) != migration.fingerprint then step == Err(CorpusChanged)
        else if |table.rows| != |s.active.rows| then step == Err(CoverageMismatch)
        else
          && step.Ok?
          && step.value.active == table && step.value.profile == Some(migration.profile)
          && step.value.tables == (s.tables - {name})[previous := s.active]
          && step.value.builds == s.builds && step.value.globalEpoch == s.globalEpoch + 1
          && (var done := s.migrations[name := migration.(stage := Activated)];
              step.value.migrations ==
              if s.profile == None then done
              else done[previous := ShadowTables.Migration(CorpusPrint(table.rows), s.profile.value, Ready, Some(s.active.rows))])
  {
  }

  /** The build has embedded the whole corpus of s, and nothing else has changed since. */
  ghost predicate Copied(s: State, copied: State, name: Id, profile: Profile, order: seq<Id>, vectors: seq<Vector>)
    requires |order| == |vectors|
  {
    && copied.active == s.active && copied.profile == s.profile && copied.globalEpoch == s.globalEpoch
    && name in copied.tables && name in copied.migrations && name in copied.builds
    && copied.migrations[name] == ShadowTables.Migration(CorpusPrint(s.active.rows), profile, Building, None)
    && copied.builds[name].pending == {}
    && copied.tables[name].dimensions == profile.dimensions
    && copied.tables[name].rows.Keys == s.active.rows.Keys
    && ReEmbedded(s.active.rows, copied.tables[name].rows, profile, order, vectors)
  }

  /** The same rows under the new profile, each with its own vector. */
  predicate ReEmbedded(rows: map<Id, Row>, after: map<Id, Row>, profile: Profile, order: seq<Id>, vectors: seq<Vector>)
    requires |order| == |vectors|
  {
    forall i :: 0 <= i < |order| ==>
      order[i] in rows && order[i] in after && after[order[i]] == Row(rows[order[i]].base, Some(profile), vectors[i])
  }

  lemma Copies(s: State, name: Id, profile: Profile, order: seq<Id>, vectors: seq<Vector>) returns (started: State, copied: State)
    requires profile.dimensions <= 2000 && name !in s.tables && name !in s.migrations
    requires Embeds(s.active.rows, order, vectors, profile)
    ensures StartBuild(s, name, profile) == Ok(started) && AddBatch(started, name, order, vectors) == Ok(copied)
    ensures Copied(s, copied, name, profile, order, vectors)
  {
    hide CorpusPrint, AddBatch, StartBuild;
    StartWrites(s, name, profile);
    started := StartBuild(s, name, profile).value;
    BatchWrites(started, name, order, vectors);
    copied := AddBatch(started, name, order, vectors).value;
    assert copied.tables[name].rows.Keys == s.active.rows.Keys;
  }

  /** An undisturbed migration ends with the new table: every row as it was, but for its new vector and the new profile; the
      old table is kept as it was, and the epoch advances once. */
  lemma Migrates(s: State, name: Id, profile: Profile, order: seq<Id>, vectors: seq<Vector>, previous: Id)
    returns (started: State, copied: State, ready: State, after: State)
    requires profile.dimensions <= 2000 && name !in s.tables && name !in s.migrations
    requires Embeds(s.active.rows, order, vectors, profile)
    ensures StartBuild(s, name, profile) == Ok(started) && AddBatch(started, name, order, vectors) == Ok(copied)
    ensures FinishBuild(copied, name) == Ok(ready) && Activate(ready, name, previous) == Ok(after)
    ensures
      && after.profile == Some(profile) && after.active.dimensions == profile.dimensions
      && after.active.rows.Keys == s.active.rows.Keys
      && ReEmbedded(s.active.rows, after.active.rows, profile, order, vectors)
      && previous in after.tables && after.tables[previous] == s.active
      && after.globalEpoch == s.globalEpoch + 1
  {
    hide CorpusPrint, Activate, AddBatch, FinishBuild, StartBuild, ReEmbedded, Embeds;
    started, copied := Copies(s, name, profile, order, vectors);
    FinishWrites(copied, name);
    ready := FinishBuild(copied, name).value;
    assert |ready.tables[name].rows.Keys| == |s.active.rows.Keys|;
    ActivationWrites(ready, name, previous);
    after := Activate(ready, name, previous).value;
  }

  /** The commands are the steps of the runs. */
  lemma CommandsAreSteps(s: State, name: Id, profile: Profile, batch: seq<Id>, vectors: seq<Vector>, previous: Id)
    ensures Step(s, BuildStarted(name, profile)) == StartBuild(s, name, profile)
    ensures Step(s, BatchAdded(name, batch, vectors)) == AddBatch(s, name, batch, vectors)
    ensures Step(s, BuildFinished(name)) == FinishBuild(s, name)
    ensures Step(s, ShadowActivated(name, previous)) == Activate(s, name, previous)
  {
  }

  lemma SideCommandsAreSteps(s: State, profile: Profile, inserted: map<Id, Row>, retired: set<Id>, documentId: Id, now: int)
    ensures Step(s, GenerationPublished(profile, inserted, retired)) == Publish(s, profile, inserted, retired)
    ensures Step(s, DocumentTombstoned(documentId, now)) == Tombstone(s, documentId, now)
    ensures Step(s, ProfileEnsured(profile)) == EnsureProfile(s, profile)
  {
  }

  // ---------------------------------------------------------------- what goes on beside it

  /** A publication is taken exactly under the active profile, with vectors of its dimension, for new chunk ids; it adds its
      rows and marks those that it retires deleted. */
  lemma PublicationWrites(s: State, profile: Profile, inserted: map<Id, Row>, retired: set<Id>)
    ensures
      var step := Publish(s, profile, inserted, retired);
      if s.profile != Some(profile) then step == Err(ProfileMismatch)
      else if exists c :: c in inserted && !(|inserted[c].embedding| == profile.dimensions && inserted[c].profile == Some(profile))
        then step == Err(BadVectors)
      else if exists c :: c in inserted && c in s.active.rows then step == Err(UniqueViolation)
      else
        && step.Ok? && step.value == s.(active := Table(s.active.dimensions, step.value.active.rows))
        && var rows := step.value.active.rows;
           && (forall c :: c in rows <==> c in s.active.rows || c in inserted)
           && (forall c :: c in inserted ==> rows[c] == inserted[c])
           && (forall c :: c in s.active.rows && c !in inserted ==>
                 rows[c] == s.active.rows[c].(base := s.active.rows[c].base.(deleted := s.active.rows[c].base.deleted || c in retired)))
  {
  }

  /** A tombstone marks the live rows of the document, and leaves all others. */
  lemma TombstoneWrites(s: State, documentId: Id, now: int)
    ensures
      var step := Tombstone(s, documentId, now);
      && step.Ok? && step.value == s.(active := Table(s.active.dimensions, step.value.active.rows))
      && var rows := step.value.active.rows;
         && (forall c :: c in rows <==> c in s.active.rows)
         && forall c :: c in s.active.rows ==>
              var base := s.active.rows[c].base;
              && (base.documentId == documentId && !base.deleted ==>
                    rows[c] == s.active.rows[c].(base := base.(deleted := true, updatedAt := now)))
              && (base.documentId != documentId || base.deleted ==> rows[c] == s.active.rows[c])
  {
  }

  /** At start-up the first profile is adopted, and any other than the adopted one refused. */
  lemma StartupDecides(s: State, profile: Profile)
    ensures
      EnsureProfile(s, profile)
      == if s.active.dimensions != profile.dimensions then Err(DimensionMismatch)
         else if s.profile == None then Ok(s.(profile := Some(profile)))
         else if s.profile == Some(profile) then Ok(s) else Err(ProfileMismatch)
  {
  }
}

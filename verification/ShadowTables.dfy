/** The embedding migration: a shadow copy of the vector table is built in batches, marked ready, and later
    swapped in by one transaction guarded by fingerprints, while publications go on. */
module ShadowTables {
  import opened Prelude

  type Id = string
  type Vector = seq<real>

  /** An embedding space. Its id is a hash of its whole manifest, so two profiles with one id are equal. */
  datatype Profile = Profile(identity: string, dimensions: nat)

  /** The columns of a vector row that a migration copies unchanged. */
  datatype Base = Base(
    tenantId: Id, documentId: Id, scope: string, deleted: bool, content: string, payload: string, tsv: string,
    createdAt: int, updatedAt: int, generationId: Option<Id>)

  datatype Row = Row(base: Base, profile: Option<Profile>, embedding: Vector)

  /** A table with its typed vector column. */
  datatype Table = Table(dimensions: nat, rows: map<Id, Row>)

  /** What the corpus fingerprint covers: every column but the embedding. */
  datatype Printed = Printed(base: Base, profile: Option<Profile>)

  function CorpusPrint(rows: map<Id, Row>): map<Id, Printed> {
    map c | c in rows :: Printed(rows[c].base, rows[c].profile)
  }

  datatype Stage = Building | Ready | Activated

  /** `fingerprint` is the corpus the migration is meant for, `target` the finished table. Hashes are
      represented by what they are taken of. */
  datatype Migration = Migration(
    fingerprint: map<Id, Printed>, profile: Profile, stage: Stage, target: Option<map<Id, Row>>)

  /** A running build: the rows it read and those still to be embedded. */
  datatype Build = Build(profile: Profile, rows: map<Id, Row>, pending: set<Id>)

  datatype State = State(
    active: Table, profile: Option<Profile>, tables: map<Id, Table>, migrations: map<Id, Migration>,
    builds: map<Id, Build>, globalEpoch: nat)

  datatype Failure =
    | TooManyDimensions | NameTaken | NotReady | IntegrityMismatch | DimensionMismatch | CorpusChanged
    | CoverageMismatch | ProfileMismatch | BadVectors | UniqueViolation

  type Outcome = Result<State, Failure>

  const MAX_DIMENSIONS: nat := 2000

  /** First transaction of a build: read the corpus, create the empty typed table, record the fingerprint. */
  function StartBuild(s: State, name: Id, profile: Profile): Outcome {
    if profile.dimensions > MAX_DIMENSIONS then Err(TooManyDimensions)
    else if name in s.tables || name in s.migrations then Err(NameTaken)
    else Ok(s.(
           tables := s.tables[name := Table(profile.dimensions, map[])],
           migrations := s.migrations[name := Migration(CorpusPrint(s.active.rows), profile, Building, None)],
           builds := s.builds[name := Build(profile, s.active.rows, s.active.rows.Keys)]))
  }

  /** The embedder answered with one vector of the right size for each row of the batch. */
  predicate GoodBatch(build: Build, batch: seq<Id>, vectors: seq<Vector>) {
    && |vectors| == |batch|
    && (forall i :: 0 <= i < |batch| ==> batch[i] in build.pending && batch[i] in build.rows)
    && (forall i, j :: 0 <= i < j < |batch| ==> batch[i] != batch[j])
    && (forall i :: 0 <= i < |vectors| ==> |vectors[i]| == build.profile.dimensions)
  }

  function ShadowRow(build: Build, c: Id, vector: Vector): Row
    requires c in build.rows
  {
    Row(build.rows[c].base, Some(build.profile), vector)
  }

  function InsertBatch(rows: map<Id, Row>, build: Build, batch: seq<Id>, vectors: seq<Vector>): map<Id, Row>
    requires GoodBatch(build, batch, vectors)
    decreases |batch|
  {
    if batch == [] then rows
    else
      var last := |batch| - 1;
      InsertBatch(rows, build, batch[..last], vectors[..last])[batch[last] := ShadowRow(build, batch[last], vectors[last])]
  }

  /** One batch: rows of the build's own snapshot, with new embeddings and the new profile in the payload. */
  function AddBatch(s: State, name: Id, batch: seq<Id>, vectors: seq<Vector>): Outcome {
    if name !in s.builds || name !in s.tables then Err(NotReady)
    else if !GoodBatch(s.builds[name], batch, vectors) then Err(BadVectors)
    else
      var build, table := s.builds[name], s.tables[name];
      Ok(s.(
         tables := s.tables[name := table.(rows := InsertBatch(table.rows, build, batch, vectors))],
         builds := s.builds[name := build.(pending := build.pending - set c | c in batch)]))
  }

  /** Last transaction of a build, after the last batch. */
  function FinishBuild(s: State, name: Id): Outcome {
    if name !in s.builds || name !in s.tables || name !in s.migrations || s.builds[name].pending != {} then Err(NotReady)
    else Ok(s.(
           migrations := s.migrations[name := s.migrations[name].(stage := Ready, target := Some(s.tables[name].rows))],
           builds := s.builds - {name}))
  }

  /** The checks of an activation, in order. */
  function Activatable(s: State, name: Id): Option<Failure> {
    if name !in s.migrations || s.migrations[name].stage != Ready || name !in s.tables then Some(NotReady)
    else if s.migrations[name].target != Some(s.tables[name].rows) then Some(IntegrityMismatch)
    else if s.tables[name].dimensions != s.migrations[name].profile.dimensions then Some(DimensionMismatch)
    else if CorpusPrint(s.active.rows) != s.migrations[name].fingerprint then Some(CorpusChanged)
    else if |s.tables[name].rows| != |s.active.rows| then Some(CoverageMismatch)
    else None
  }

  /** Swaps the shadow table in. The old table is kept as `previous`, itself a ready migration if there was
      a profile to go back to. */
  function Activate(s: State, name: Id, previous: Id): Outcome {
    var refused := Activatable(s, name);
    if refused.Some? then Err(refused.value)
    else
      var migration := s.migrations[name];
      var swapped := s.tables[name];
      var migrations := s.migrations[name := migration.(stage := Activated)];
      Ok(State(
           swapped, Some(migration.profile), (s.tables - {name})[previous := s.active],
           if s.profile.None? then migrations
           else migrations[previous := Migration(CorpusPrint(swapped.rows), s.profile.value, Ready, Some(s.active.rows))],
           s.builds, s.globalEpoch + 1))
  }

  /** A publication, as far as the vector table is concerned: new rows under the active profile, and rows that
      predate publication retired. */
  function Publish(s: State, profile: Profile, inserted: map<Id, Row>, retired: set<Id>): Outcome {
    if s.profile != Some(profile) then Err(ProfileMismatch)
    else if exists c :: c in inserted && (|inserted[c].embedding| != profile.dimensions || inserted[c].profile != Some(profile)) then Err(BadVectors)
    else if exists c :: c in inserted && c in s.active.rows then Err(UniqueViolation)
    else
      var kept := map c | c in s.active.rows ::
        if c in retired then s.active.rows[c].(base := s.active.rows[c].base.(deleted := true)) else s.active.rows[c];
      Ok(s.(active := s.active.(rows := kept + inserted)))
  }

  /** Tombstones the rows of a document. */
  function Tombstone(s: State, documentId: Id, now: int): Outcome {
    Ok(s.(active := s.active.(rows := map c | c in s.active.rows ::
      if s.active.rows[c].base.documentId == documentId && !s.active.rows[c].base.deleted
      then s.active.rows[c].(base := s.active.rows[c].base.(deleted := true, updatedAt := now)) else s.active.rows[c])))
  }

  /** Start-up: the table must have the embedder's dimension, and the first profile is adopted. */
  function EnsureProfile(s: State, profile: Profile): Outcome {
    if s.active.dimensions != profile.dimensions then Err(DimensionMismatch)
    else if s.profile.None? then Ok(s.(profile := Some(profile)))
    else if s.profile.value != profile then Err(ProfileMismatch)
    else Ok(s)
  }

  datatype Event =
    | BuildStarted(name: Id, profile: Profile)
    | BatchAdded(name: Id, batch: seq<Id>, vectors: seq<Vector>)
    | BuildFinished(name: Id)
    | ShadowActivated(name: Id, previous: Id)
    | GenerationPublished(profile: Profile, inserted: map<Id, Row>, retired: set<Id>)
    | DocumentTombstoned(documentId: Id, now: int)
    | ProfileEnsured(profile: Profile)

  function Step(s: State, e: Event): Outcome {
    match e
    case BuildStarted(name, profile) => StartBuild(s, name, profile)
    case BatchAdded(name, batch, vectors) => AddBatch(s, name, batch, vectors)
    case BuildFinished(name) => FinishBuild(s, name)
    case ShadowActivated(name, previous) => Activate(s, name, previous)
    case GenerationPublished(profile, inserted, retired) => Publish(s, profile, inserted, retired)
    case DocumentTombstoned(documentId, now) => Tombstone(s, documentId, now)
    case ProfileEnsured(profile) => EnsureProfile(s, profile)
  }

  function Next(s: State, e: Event): State {
    var outcome := Step(s, e);
    if outcome.Ok? then outcome.value else s
  }
}

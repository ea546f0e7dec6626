/** The migration commands as programs over the mutable tables. */
module ShadowStore {
  import opened Prelude
  import opened ShadowTables
  import Migration

  class Database {
    var active: Table
    var profile: Option<Profile>
    var tables: map<Id, Table>
    var migrations: map<Id, ShadowTables.Migration>
    var builds: map<Id, Build>
    var globalEpoch: nat

    ghost function State(): ShadowTables.State
      reads this
    {
      ShadowTables.State(active, profile, tables, migrations, builds, globalEpoch)
    }

    /** Writes one embedded batch, row by row. */
    method AddBatch(name: Id, batch: seq<Id>, vectors: seq<Vector>) returns (result: Result<(), Failure>)
      modifies this
      ensures State() == Next(old(State()), BatchAdded(name, batch, vectors))
      ensures result.Ok? <==> Step(old(State()), BatchAdded(name, batch, vectors)).Ok?
    {
      if name !in builds || name !in tables {
        return Err(NotReady);
      }
      var build := builds[name];
      if !GoodBatch(build, batch, vectors) {
        return Err(BadVectors);
      }
      var rows := tables[name].rows;
      for i := 0 to |batch|
        invariant GoodBatch(build, batch[..i], vectors[..i])
        invariant rows == InsertBatch(tables[name].rows, build, batch[..i], vectors[..i])
      {
        assert batch[..i + 1][..i] == batch[..i] && vectors[..i + 1][..i] == vectors[..i];
        rows := rows[batch[i] := Row(build.rows[batch[i]].base, Some(build.profile), vectors[i])];
      }
      assert batch[..|batch|] == batch && vectors[..|vectors|] == vectors;
      tables := tables[name := tables[name].(rows := rows)];
      builds := builds[name := build.(pending := build.pending - set c | c in batch)];
      return Ok(());
    }

    /** The switch: checks in order, then renames, the migration rows, the profile and the epoch. */
    method Activate(name: Id, previous: Id) returns (result: Result<Id, Failure>)
      modifies this
      ensures State() == Next(old(State()), ShadowActivated(name, previous))
      ensures
        match Step(old(State()), ShadowActivated(name, previous))
        case Ok(_) => result == Ok(previous)
        case Err(e) => result == Err(e)
    {
      if name !in migrations || migrations[name].stage != Ready || name !in tables {
        return Err(NotReady);
      }
      var migration, shadow := migrations[name], tables[name];
      if migration.target != Some(shadow.rows) {
        return Err(IntegrityMismatch);
      }
      if shadow.dimensions != migration.profile.dimensions {
        return Err(DimensionMismatch);
      }
      if CorpusPrint(active.rows) != migration.fingerprint {
        return Err(CorpusChanged);
      }
      if |shadow.rows| != |active.rows| {
        return Err(CoverageMismatch);
      }
      var oldProfile, oldTable := profile, active;
      tables := (tables - {name})[previous := oldTable];
      active := shadow;
      migrations := migrations[name := migration.(stage := Activated)];
      if oldProfile.Some? {
        migrations := migrations[previous :=
          ShadowTables.Migration.Migration(CorpusPrint(active.rows), oldProfile.value, Ready, Some(oldTable.rows))];
      }
      profile := Some(migration.profile);
      globalEpoch := globalEpoch + 1;
      return Ok(previous);
    }
  }
}

/** What the migration protocol guarantees over every run of builds, activations and publications. */
module Migration {
  import opened Prelude
  import opened ShadowTables

  /** The random name of a kept table was never used before. */
  ghost predicate Fresh(s: State, e: Event) {
    e.ShadowActivated? ==> e.previous !in s.tables && e.previous !in s.migrations && e.previous !in s.builds
  }

  /** Before the first migration: the active table alone, its vectors typed by its column. */
  ghost predicate Init(s: State) {
    && s.tables == map[] && s.migrations == map[] && s.builds == map[]
    && WellTyped(s.active)
    && (s.profile.Some? ==> s.active.dimensions == s.profile.value.dimensions)
  }

  ghost predicate WellTyped(table: Table) {
    forall c :: c in table.rows ==> |table.rows[c].embedding| == table.dimensions
  }

  /** A running build has copied exactly the rows that are no longer pending. */
  ghost predicate BuildSound(s: State, name: Id)
    requires name in s.builds
  {
    var build := s.builds[name];
    && name in s.tables
    && name in s.migrations
    && s.migrations[name] == ShadowTables.Migration(CorpusPrint(build.rows), build.profile, Building, None)
    && s.tables[name].dimensions == build.profile.dimensions
    && build.pending <= build.rows.Keys
    && s.tables[name].rows.Keys == build.rows.Keys - build.pending
    && forall c :: c in s.tables[name].rows ==>
         s.tables[name].rows[c] == ShadowRow(build, c, s.tables[name].rows[c].embedding)
  }

  /** A ready migration's table holds the rows of the corpus it is meant for, apart from embedding and profile. */
  ghost predicate ReadySound(s: State, name: Id)
    requires name in s.migrations
  {
    var migration := s.migrations[name];
    migration.stage == Ready ==>
      && name in s.tables
      && name !in s.builds
      && migration.target == Some(s.tables[name].rows)
      && s.tables[name].dimensions == migration.profile.dimensions
      && s.tables[name].rows.Keys == migration.fingerprint.Keys
      && forall c :: c in migration.fingerprint ==> s.tables[name].rows[c].base == migration.fingerprint[c].base
  }

  ghost predicate Inv(s: State) {
    && WellTyped(s.active)
    && (s.profile.Some? ==> s.active.dimensions == s.profile.value.dimensions)
    && (forall name :: name in s.tables ==> WellTyped(s.tables[name]))
    && (forall name :: name in s.builds ==> BuildSound(s, name))
    && (forall name :: name in s.migrations ==> ReadySound(s, name))
  }

  lemma GoodFront(build: Build, batch: seq<Id>, vectors: seq<Vector>)
    requires GoodBatch(build, batch, vectors) && batch != []
    ensures GoodBatch(build, batch[..|batch| - 1], vectors[..|batch| - 1])
  {
  }

  /** The rows of a batch and no others, each with its own vector. */
  ghost predicate BatchAdded(rows: map<Id, Row>, after: map<Id, Row>, build: Build, batch: seq<Id>, vectors: seq<Vector>)
    requires GoodBatch(build, batch, vectors)
  {
    && (forall c :: c in after <==> c in rows || c in batch)
    && (forall c :: c in rows && c !in batch ==> after[c] == rows[c])
    && (forall i :: 0 <= i < |batch| ==> batch[i] in after && after[batch[i]] == ShadowRow(build, batch[i], vectors[i]))
  }

  lemma BatchAddedNext(rows: map<Id, Row>, before: map<Id, Row>, build: Build, batch: seq<Id>, vectors: seq<Vector>, row: Row)
    requires GoodBatch(build, batch, vectors) && batch != []
    requires GoodBatch(build, batch[..|batch| - 1], vectors[..|batch| - 1])
    requires BatchAdded(rows, before, build, batch[..|batch| - 1], vectors[..|batch| - 1])
    requires row == ShadowRow(build, batch[|batch| - 1], vectors[|batch| - 1])
    ensures BatchAdded(rows, before[batch[|batch| - 1] := row], build, batch, vectors)
  {
    hide ShadowRow;
    var last := |batch| - 1;
    var front := batch[..last];
    assert batch == front + [batch[last]];
    forall i | 0 <= i < last ensures batch[i] in before && before[batch[i]] == ShadowRow(build, batch[i], vectors[i]) && batch[i] != batch[last] {
      assert front[i] == batch[i] && vectors[..last][i] == vectors[i];
    }
  }

  lemma {:induction false} BatchRows(rows: map<Id, Row>, build: Build, batch: seq<Id>, vectors: seq<Vector>)
    requires GoodBatch(build, batch, vectors)
    ensures BatchAdded(rows, InsertBatch(rows, build, batch, vectors), build, batch, vectors)
    decreases |batch|
  {
    if batch != [] {
      hide ShadowRow, BatchAdded, GoodBatch;
      var last := |batch| - 1;
      GoodFront(build, batch, vectors);
      BatchRows(rows, build, batch[..last], vectors[..last]);
      BatchInserted(rows, build, batch, vectors);
      BatchAddedNext(rows, InsertBatch(rows, build, batch[..last], vectors[..last]), build, batch, vectors,
                     ShadowRow(build, batch[last], vectors[last]));
    }
  }

  lemma BatchInserted(rows: map<Id, Row>, build: Build, batch: seq<Id>, vectors: seq<Vector>)
    requires GoodBatch(build, batch, vectors) && batch != []
    ensures
      var last := |batch| - 1;
      InsertBatch(rows, build, batch, vectors)
      == InsertBatch(rows, build, batch[..last], vectors[..last])[batch[last] := ShadowRow(build, batch[last], vectors[last])]
  {
  }

  lemma BatchKeepsInv(s: State, name: Id, batch: seq<Id>, vectors: seq<Vector>)
    requires Inv(s) && AddBatch(s, name, batch, vectors).Ok?
    ensures Inv(AddBatch(s, name, batch, vectors).value)
  {
    var after, build := AddBatch(s, name, batch, vectors).value, s.builds[name];
    assert BuildSound(s, name);
    BatchRows(s.tables[name].rows, build, batch, vectors);
    var rows := after.tables[name].rows;
    forall c | c in rows
      ensures c in build.rows && rows[c] == ShadowRow(build, c, rows[c].embedding) && |rows[c].embedding| == build.profile.dimensions
    {
      if c in batch {
        var i :| 0 <= i < |batch| && batch[i] == c;
        assert rows[batch[i]] == ShadowRow(build, batch[i], vectors[i]);
      }
    }
    forall other | other in after.builds ensures BuildSound(after, other) {
      assert BuildSound(s, other);
    }
    forall other | other in after.migrations ensures ReadySound(after, other) {
      assert ReadySound(s, other);
    }
  }

  lemma FinishKeepsInv(s: State, name: Id)
    requires Inv(s) && FinishBuild(s, name).Ok?
    ensures Inv(FinishBuild(s, name).value)
  {
    var after := FinishBuild(s, name).value;
    assert BuildSound(s, name);
    forall other | other in after.builds ensures BuildSound(after, other) {
      assert BuildSound(s, other);
    }
    forall other | other in after.migrations ensures ReadySound(after, other) {
      assert ReadySound(s, other);
    }
  }

  lemma StartKeepsInv(s: State, name: Id, profile: Profile)
    requires Inv(s) && StartBuild(s, name, profile).Ok?
    ensures Inv(StartBuild(s, name, profile).value)
  {
    var after := StartBuild(s, name, profile).value;
    forall other | other in after.builds ensures BuildSound(after, other) {
      if other != name {
        assert BuildSound(s, other);
      }
    }
    forall other | other in after.migrations ensures ReadySound(after, other) {
      if other != name {
        assert ReadySound(s, other);
        assert other in s.builds ==> BuildSound(s, other);
      }
    }
  }

  /** Same chunks, with the same columns apart from the embedding and the profile in the payload. */
  ghost predicate SameCorpus(a: map<Id, Row>, b: map<Id, Row>) {
    a.Keys == b.Keys && forall c :: c in a ==> a[c].base == b[c].base
  }

  /** An activation that succeeds swaps in a table with the same corpus as the current one, of the migration's
      dimension, and only if the corpus is the one the migration was built from. */
  lemma ActivationKeepsCorpus(s: State, name: Id, previous: Id)
    requires Inv(s) && Activate(s, name, previous).Ok?
    ensures
      var after := Activate(s, name, previous).value;
      && SameCorpus(after.active.rows, s.active.rows)
      && CorpusPrint(s.active.rows) == s.migrations[name].fingerprint
      && after.profile == Some(s.migrations[name].profile)
      && after.tables[previous] == s.active
  {
    assert ReadySound(s, name);
    forall c | c in s.active.rows ensures s.tables[name].rows[c].base == s.active.rows[c].base {
      assert s.migrations[name].fingerprint[c] == CorpusPrint(s.active.rows)[c];
    }
  }

  lemma ActivateKeepsInv(s: State, name: Id, previous: Id)
    requires Inv(s) && Activate(s, name, previous).Ok? && Fresh(s, ShadowActivated(name, previous))
    ensures Inv(Activate(s, name, previous).value)
  {
    var after := Activate(s, name, previous).value;
    ActivationKeepsCorpus(s, name, previous);
    assert ReadySound(s, name);
    forall other | other in after.builds ensures BuildSound(after, other) {
      assert BuildSound(s, other);
    }
    forall other | other in after.migrations ensures ReadySound(after, other) {
      if other != previous {
        assert ReadySound(s, other);
      }
    }
  }

  lemma SideStepKeepsInv(s: State, e: Event)
    requires Inv(s) && (e.GenerationPublished? || e.DocumentTombstoned? || e.ProfileEnsured?)
    ensures Inv(Next(s, e))
  {
    var after := Next(s, e);
    forall name | name in after.builds ensures BuildSound(after, name) {
      assert BuildSound(s, name);
    }
    forall name | name in after.migrations ensures ReadySound(after, name) {
      assert ReadySound(s, name);
    }
  }

  lemma InvStep(s: State, e: Event)
    requires Inv(s) && Fresh(s, e)
    ensures Inv(Next(s, e))
  {
    if e.GenerationPublished? || e.DocumentTombstoned? || e.ProfileEnsured? {
      SideStepKeepsInv(s, e);
    } else if Step(s, e).Ok? {
      match e
      case BuildStarted(name, profile) => StartKeepsInv(s, name, profile);
      case BatchAdded(name, batch, vectors) => BatchKeepsInv(s, name, batch, vectors);
      case BuildFinished(name) => FinishKeepsInv(s, name);
      case ShadowActivated(name, previous) => ActivateKeepsInv(s, name, previous);
    }
  }

  // ---------------------------------------------------------------- runs

  ghost predicate StepAt(states: seq<State>, events: seq<Event>, i: nat)
    requires |states| == |events| + 1 && i < |events|
  {
    Fresh(states[i], events[i]) && states[i + 1] == Next(states[i], events[i])
  }

  ghost predicate Run(states: seq<State>, events: seq<Event>) {
    && |states| == |events| + 1
    && Init(states[0])
    && forall i :: 0 <= i < |events| ==> StepAt(states, events, i)
  }

  lemma {:induction false} InvAlways(states: seq<State>, events: seq<Event>, k: nat)
    requires Run(states, events) && k < |states|
    ensures Inv(states[k])
  {
    if k > 0 {
      InvAlways(states, events, k - 1);
      assert StepAt(states, events, k - 1);
      InvStep(states[k - 1], events[k - 1]);
    }
  }

  /** Whatever is built, published and activated, every vector of the active table has the dimension of the
      active profile. */
  lemma ActiveVectorsHaveProfileDimension(states: seq<State>, events: seq<Event>, k: nat, c: Id)
    requires Run(states, events) && k < |states|
    requires states[k].profile.Some? && c in states[k].active.rows
    ensures |states[k].active.rows[c].embedding| == states[k].profile.value.dimensions
  {
    InvAlways(states, events, k);
  }

  /** In every reachable state a migration can be activated exactly when it is ready and the corpus is the one
      it was built from; the integrity, dimension and coverage checks then cannot fail. */
  lemma ActivatableExactlyWhenUnchanged(states: seq<State>, events: seq<Event>, k: nat, name: Id)
    requires Run(states, events) && k < |states|
    ensures Activatable(states[k], name).None? <==>
              && name in states[k].migrations
              && states[k].migrations[name].stage == Ready
              && CorpusPrint(states[k].active.rows) == states[k].migrations[name].fingerprint
  {
    InvAlways(states, events, k);
    var s := states[k];
    if name in s.migrations && s.migrations[name].stage == Ready && CorpusPrint(s.active.rows) == s.migrations[name].fingerprint {
      assert ReadySound(s, name);
      assert s.tables[name].rows.Keys == CorpusPrint(s.active.rows).Keys == s.active.rows.Keys;
      assert |s.tables[name].rows.Keys| == |s.active.rows.Keys|;
    }
  }

  /** An activation either changes nothing, or swaps in the same corpus under the migration's profile. */
  lemma ActivationChangesNothingOrSwaps(states: seq<State>, events: seq<Event>, k: nat)
    requires Run(states, events) && k < |events| && events[k].ShadowActivated?
    ensures states[k + 1] == states[k] ||
            (&& SameCorpus(states[k + 1].active.rows, states[k].active.rows)
             && events[k].name in states[k].migrations
             && CorpusPrint(states[k].active.rows) == states[k].migrations[events[k].name].fingerprint
             && states[k + 1].profile == Some(states[k].migrations[events[k].name].profile)
             && states[k + 1].globalEpoch == states[k].globalEpoch + 1)
  {
    InvAlways(states, events, k);
    assert StepAt(states, events, k);
    if Step(states[k], events[k]).Ok? {
      ActivationKeepsCorpus(states[k], events[k].name, events[k].previous);
    }
  }

  // ---------------------------------------------------------------- going back

  /** The table that was active before, kept under `previous` as a ready migration. */
  ghost predicate Kept(s: State, previous: Id, table: Table, profile: Profile, corpus: map<Id, Printed>) {
    && previous in s.tables && s.tables[previous] == table
    && previous in s.migrations && s.migrations[previous] == ShadowTables.Migration(corpus, profile, Ready, Some(table.rows))
    && previous !in s.builds
  }

  lemma ActivationKeepsPrevious(s: State, name: Id, previous: Id)
    requires Activate(s, name, previous).Ok? && Fresh(s, ShadowActivated(name, previous)) && s.profile.Some?
    ensures
      var after := Activate(s, name, previous).value;
      Kept(after, previous, s.active, s.profile.value, CorpusPrint(after.active.rows))
  {
  }

  lemma KeptByOtherSteps(s: State, e: Event, previous: Id, table: Table, profile: Profile, corpus: map<Id, Printed>)
    requires Kept(s, previous, table, profile, corpus) && Fresh(s, e)
    requires e.ShadowActivated? ==> e.name != previous
    ensures Kept(Next(s, e), previous, table, profile, corpus)
  {
  }

  ghost predicate NotReactivated(events: seq<Event>, previous: Id, i: nat, k: nat)
    requires k <= |events|
  {
    forall m :: i <= m < k && events[m].ShadowActivated? ==> events[m].name != previous
  }

  lemma {:induction false} KeptThroughout(states: seq<State>, events: seq<Event>, i: nat, k: nat, previous: Id,
                                          table: Table, profile: Profile, corpus: map<Id, Printed>)
    requires Run(states, events) && i <= k < |states| && NotReactivated(events, previous, i, k)
    requires Kept(states[i], previous, table, profile, corpus)
    ensures Kept(states[k], previous, table, profile, corpus)
    decreases k - i
  {
    if i < k {
      KeptThroughout(states, events, i, k - 1, previous, table, profile, corpus);
      assert StepAt(states, events, k - 1);
      KeptByOtherSteps(states[k - 1], events[k - 1], previous, table, profile, corpus);
    }
  }

  /** Going back, at any later time: as long as `previous` itself was not activated meanwhile, it can be
      activated exactly while the corpus is what it was right after the switch, and that restores the
      original table and profile exactly. */
  lemma RollbackExactlyWhileUnchanged(states: seq<State>, events: seq<Event>, i: nat, k: nat, again: Id)
    requires Run(states, events) && i < k < |states|
    requires events[i].ShadowActivated? && Step(states[i], events[i]).Ok? && states[i].profile.Some?
    requires NotReactivated(events, events[i].previous, i + 1, k)
    ensures
      var back := Activate(states[k], events[i].previous, again);
      && (back.Ok? <==> CorpusPrint(states[k].active.rows) == CorpusPrint(states[i + 1].active.rows))
      && (back.Ok? ==> back.value.active == states[i].active && back.value.profile == states[i].profile)
  {
    assert StepAt(states, events, i);
    var previous := events[i].previous;
    ActivationKeepsPrevious(states[i], events[i].name, previous);
    KeptThroughout(states, events, i + 1, k, previous, states[i].active, states[i].profile.value, CorpusPrint(states[i + 1].active.rows));
    ActivatableExactlyWhenUnchanged(states, events, k, previous);
  }

  /** In particular, going back right away always works. */
  lemma ImmediateRollbackRestores(states: seq<State>, events: seq<Event>, i: nat, again: Id)
    requires Run(states, events) && i < |events|
    requires events[i].ShadowActivated? && Step(states[i], events[i]).Ok? && states[i].profile.Some?
    ensures
      var back := Activate(states[i + 1], events[i].previous, again);
      back.Ok? && back.value.active == states[i].active && back.value.profile == states[i].profile
  {
    RollbackExactlyWhileUnchanged(states, events, i, i + 1, again);
  }

  /** With no profile to go back to, the kept table is not a migration and cannot be activated. */
  lemma NoRollbackWithoutProfile(s: State, name: Id, previous: Id, again: Id)
    requires Activate(s, name, previous).Ok? && Fresh(s, ShadowActivated(name, previous)) && s.profile.None?
    ensures Activate(Activate(s, name, previous).value, previous, again) == Err(NotReady)
  {
    assert name != previous;
  }
}

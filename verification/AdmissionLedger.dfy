/** The simple ledger of leases and grants that the five sorted sets must agree with, and the proof that
    over every run they do: same decisions, same live entries, limits and rates never exceeded. */
module AdmissionLedger {
  import opened AdmissionScripts

  datatype Lease = Lease(tenant: Id, user: Id, expiry: int)
  datatype Grant = Grant(tenant: Id, user: Id, time: int, order: nat)

  /** One lease per admitted request, and every grant ever made, numbered. */
  datatype Ledger = Ledger(leases: map<Id, Lease>, grants: map<Id, Grant>)

  /** What counts against a key at a moment: its unexpired leases, or its grants of the last minute. */
  function Entries(ledger: Ledger, key: Key, now: int): map<Id, int> {
    match key
    case Global =>
      map k | k in ledger.leases && ledger.leases[k].expiry > now :: ledger.leases[k].expiry
    case TenantActive(t) =>
      map k | k in ledger.leases && ledger.leases[k].expiry > now && ledger.leases[k].tenant == t :: ledger.leases[k].expiry
    case UserActive(t, u) =>
      map k | k in ledger.leases && ledger.leases[k].expiry > now && ledger.leases[k].tenant == t && ledger.leases[k].user == u ::
        ledger.leases[k].expiry
    case TenantRate(t) =>
      map k | k in ledger.grants && ledger.grants[k].time > now - WINDOW_MS && ledger.grants[k].tenant == t :: ledger.grants[k].time
    case UserRate(t, u) =>
      map k | k in ledger.grants && ledger.grants[k].time > now - WINDOW_MS && ledger.grants[k].tenant == t && ledger.grants[k].user == u ::
        ledger.grants[k].time
  }

  /** The admission rule: below every limit that applies. */
  predicate Admits(ledger: Ledger, limits: Limits, tenant: Id, user: Id, now: int) {
    && |Entries(ledger, Global, now)| < limits.global
    && |Entries(ledger, TenantActive(tenant), now)| < limits.tenant
    && |Entries(ledger, UserActive(tenant, user), now)| < limits.user
    && |Entries(ledger, TenantRate(tenant), now)| < limits.tenantPerMinute
    && |Entries(ledger, UserRate(tenant, user), now)| < limits.userPerMinute
  }

  predicate Owns(ledger: Ledger, tenant: Id, user: Id, token: Id) {
    token in ledger.leases && ledger.leases[token].tenant == tenant && ledger.leases[token].user == user
  }

  datatype Event =
    | Acquired(tenant: Id, user: Id, token: Id, now: int)
    | Renewed(tenant: Id, user: Id, token: Id, now: int)
    | Released(tenant: Id, user: Id, token: Id, now: int)
    | KeyExpired(key: Key, now: int)

  /** What Redis does; a key may be dropped at any moment from its deadline on. */
  function StoreStep(store: Store, limits: Limits, e: Event): (Store, bool) {
    match e
    case Acquired(tenant, user, token, now) => Acquire(store, limits, tenant, user, token, now)
    case Renewed(tenant, user, token, now) => Renew(store, tenant, user, token, now)
    case Released(tenant, user, token, _) => (Release(store, tenant, user, token), true)
    case KeyExpired(key, now) =>
      if key in store && store[key].expiresAt.Some? && store[key].expiresAt.value <= now then (store - {key}, true) else (store, false)
  }

  /** What it should mean. */
  function LedgerStep(ledger: Ledger, limits: Limits, e: Event): (Ledger, bool) {
    match e
    case Acquired(tenant, user, token, now) =>
      if Admits(ledger, limits, tenant, user, now)
      then (Granted(ledger, tenant, user, token, now), true)
      else (ledger, false)
    case Renewed(tenant, user, token, now) =>
      if Owns(ledger, tenant, user, token) && ledger.leases[token].expiry > now
      then (Extended(ledger, tenant, user, token, now), true)
      else (ledger, false)
    case Released(tenant, user, token, _) =>
      (if Owns(ledger, tenant, user, token) then Returned(ledger, token) else ledger, true)
    case KeyExpired(_, _) => (ledger, true)
  }

  /** Time does not run backwards, tokens are new, and a caller releases its own token. */
  ghost predicate Allowed(ledger: Ledger, clock: int, e: Event) {
    && clock <= e.now
    && (e.Acquired? ==> e.token !in ledger.grants)
    && (e.Released? ==> (e.token in ledger.leases ==> Owns(ledger, e.tenant, e.user, e.token)))
  }

  // ---------------------------------------------------------------- the relation between the two

  function Live(store: Store, key: Key, now: int): map<Id, int> {
    Above(Members(store, key), Horizon(key, now))
  }

  /** The key's own deadline never precedes a member that still counts. */
  ghost predicate Covered(store: Store, key: Key, clock: int)
    requires key in store
  {
    && store[key].expiresAt.Some?
    && store[key].expiresAt.value <= Deadline(key, clock)
    && forall k :: k in store[key].members ==> store[key].members[k] <= Horizon(key, store[key].expiresAt.value)
  }

  ghost predicate Agrees(store: Store, ledger: Ledger, now: int) {
    && (forall key :: Live(store, key, now) == Entries(ledger, key, now))
    && (forall key :: key in store ==> Covered(store, key, now))
  }

  lemma AgreesLater(store: Store, ledger: Ledger, clock: int, now: int)
    requires Agrees(store, ledger, clock) && clock <= now
    ensures Agrees(store, ledger, now)
  {
    forall key ensures Live(store, key, now) == Entries(ledger, key, now) {
      assert Live(store, key, clock) == Entries(ledger, key, clock);
      EntriesLater(ledger, key, clock, now);
      assert Live(store, key, now) == Above(Live(store, key, clock), Horizon(key, now));
    }
  }

  lemma EntriesLater(ledger: Ledger, key: Key, clock: int, now: int)
    requires clock <= now
    ensures Entries(ledger, key, now) == Above(Entries(ledger, key, clock), Horizon(key, now))
  {
  }

  lemma PruneKeepsLive(store: Store, key: Key, other: Key, now: int)
    ensures Live(Prune(store, key, Horizon(key, now)), other, now) == Live(store, other, now)
    ensures Members(Prune(store, key, Horizon(key, now)), key) == Live(store, key, now)
  {
  }

  ghost predicate CoveredAll(store: Store, clock: int) {
    forall key :: key in store ==> Covered(store, key, clock)
  }

  lemma PruneKeepsCovered(store: Store, key: Key, bound: int, clock: int)
    requires CoveredAll(store, clock)
    ensures CoveredAll(Prune(store, key, bound), clock)
  {
    var after := Prune(store, key, bound);
    forall k | k in after ensures Covered(after, k, clock) {
      assert Covered(store, k, clock);
    }
  }

  /** Checking never changes what is live, and passes exactly when every key is below its limit. */
  lemma {:induction false} CheckDecides(store: Store, keys: seq<Key>, limits: seq<nat>, now: int)
    requires |keys| == |limits| && CoveredAll(store, now)
    ensures var (after, passed) := Check(store, keys, limits, now);
      && (forall key :: Live(after, key, now) == Live(store, key, now))
      && CoveredAll(after, now)
      && (passed <==> forall i :: 0 <= i < |keys| ==> |Live(store, keys[i], now)| < limits[i])
    decreases |keys|
  {
    if keys != [] {
      var pruned := Prune(store, keys[0], Horizon(keys[0], now));
      forall key ensures Live(pruned, key, now) == Live(store, key, now) {
        PruneKeepsLive(store, keys[0], key, now);
      }
      PruneKeepsLive(store, keys[0], keys[0], now);
      PruneKeepsCovered(store, keys[0], Horizon(keys[0], now), now);
      if |Members(pruned, keys[0])| < limits[0] {
        CheckDecides(pruned, keys[1..], limits[1..], now);
        assert forall i :: 1 <= i < |keys| ==> keys[i] == keys[1..][i - 1] && limits[i] == limits[1..][i - 1];
      }
    }
  }

  lemma AddEffect(store: Store, key: Key, token: Id, now: int)
    requires CoveredAll(store, now)
    ensures var after := Add(store, key, token, now);
      && CoveredAll(after, now)
      && (forall other :: Live(after, other, now) ==
            if other == key then Live(store, other, now)[token := Score(key, now)] else Live(store, other, now))
  {
    var after := Add(store, key, token, now);
    forall k | k in after ensures Covered(after, k, now) {
      if k in store {
        assert Covered(store, k, now);
      }
    }
  }

  lemma {:induction false} AddAllEffect(store: Store, keys: seq<Key>, token: Id, now: int)
    requires CoveredAll(store, now)
    requires forall i, j :: 0 <= i < j < |keys| ==> keys[i] != keys[j]
    ensures var after := AddAll(store, keys, token, now);
      && CoveredAll(after, now)
      && (forall key :: Live(after, key, now) ==
            if key in keys then Live(store, key, now)[token := Score(key, now)] else Live(store, key, now))
    decreases |keys|
  {
    if keys != [] {
      AddEffect(store, keys[0], token, now);
      var next := Add(store, keys[0], token, now);
      AddAllEffect(next, keys[1..], token, now);
      assert forall i :: 1 <= i < |keys| ==> keys[1..][i - 1] == keys[i];
      forall key
        ensures Live(AddAll(store, keys, token, now), key, now) ==
                if key in keys then Live(store, key, now)[token := Score(key, now)] else Live(store, key, now)
      {
        assert key in keys <==> key == keys[0] || key in keys[1..];
      }
    }
  }

  lemma {:induction false} DropAllEffect(store: Store, keys: seq<Key>, token: Id, now: int)
    requires CoveredAll(store, now)
    ensures var after := DropAll(store, keys, token);
      && CoveredAll(after, now)
      && (forall key :: Live(after, key, now) == if key in keys then Live(store, key, now) - {token} else Live(store, key, now))
    decreases |keys|
  {
    if keys != [] {
      var next := Drop(store, keys[0], token);
      forall k | k in next ensures Covered(next, k, now) {
        assert Covered(store, k, now);
      }
      forall key ensures Live(next, key, now) == if key == keys[0] then Live(store, key, now) - {token} else Live(store, key, now) {
      }
      DropAllEffect(next, keys[1..], token, now);
      forall key
        ensures Live(DropAll(store, keys, token), key, now) ==
                if key in keys then Live(store, key, now) - {token} else Live(store, key, now)
      {
        assert key in keys <==> key == keys[0] || key in keys[1..];
      }
    }
  }

  // ---------------------------------------------------------------- one step

  lemma KeysDistinct(tenant: Id, user: Id)
    ensures var keys := Keys(tenant, user);
      forall i, j :: 0 <= i < j < |keys| ==> keys[i] != keys[j]
  {
  }

  /** The key counts this principal's requests. */
  predicate Counts(key: Key, tenant: Id, user: Id) {
    match key
    case Global => true
    case TenantActive(t) => t == tenant
    case UserActive(t, u) => t == tenant && u == user
    case TenantRate(t) => t == tenant
    case UserRate(t, u) => t == tenant && u == user
  }

  lemma KeysCount(key: Key, tenant: Id, user: Id)
    ensures key in Keys(tenant, user) <==> Counts(key, tenant, user)
    ensures key in Keys(tenant, user)[..3] <==> Counts(key, tenant, user) && Active(key)
  {
    var keys := Keys(tenant, user);
    assert keys[..3] == [Global, TenantActive(tenant), UserActive(tenant, user)];
  }

  function Granted(ledger: Ledger, tenant: Id, user: Id, token: Id, now: int): Ledger {
    Ledger(ledger.leases[token := Lease(tenant, user, now + LEASE_MS)],
           ledger.grants[token := Grant(tenant, user, now, |ledger.grants|)])
  }

  lemma GrantedEntries(ledger: Ledger, tenant: Id, user: Id, token: Id, now: int, key: Key)
    requires token !in ledger.grants && token !in ledger.leases
    ensures Entries(Granted(ledger, tenant, user, token, now), key, now) ==
            if Counts(key, tenant, user) then Entries(ledger, key, now)[token := Score(key, now)] else Entries(ledger, key, now)
  {
  }

  function Extended(ledger: Ledger, tenant: Id, user: Id, token: Id, now: int): Ledger {
    ledger.(leases := ledger.leases[token := Lease(tenant, user, now + LEASE_MS)])
  }

  lemma ExtendedEntries(ledger: Ledger, tenant: Id, user: Id, token: Id, now: int, key: Key)
    requires Owns(ledger, tenant, user, token)
    ensures Entries(Extended(ledger, tenant, user, token, now), key, now) ==
            if Counts(key, tenant, user) && Active(key) then Entries(ledger, key, now)[token := Score(key, now)]
            else Entries(ledger, key, now)
  {
  }

  function Returned(ledger: Ledger, token: Id): Ledger {
    ledger.(leases := ledger.leases - {token})
  }

  lemma ReturnedEntries(ledger: Ledger, tenant: Id, user: Id, token: Id, now: int, key: Key)
    requires token in ledger.leases ==> Owns(ledger, tenant, user, token)
    ensures Entries(Returned(ledger, token), key, now) ==
            if Counts(key, tenant, user) && Active(key) then Entries(ledger, key, now) - {token} else Entries(ledger, key, now)
  {
  }

  ghost predicate LeasesGranted(ledger: Ledger) {
    ledger.leases.Keys <= ledger.grants.Keys
  }

  lemma BelowLimits(ledger: Ledger, limits: Limits, tenant: Id, user: Id, now: int)
    ensures Admits(ledger, limits, tenant, user, now) <==>
              forall i :: 0 <= i < 5 ==> |Entries(ledger, Keys(tenant, user)[i], now)| < LimitSeq(limits)[i]
  {
    var keys, bounds := Keys(tenant, user), LimitSeq(limits);
    if forall i :: 0 <= i < 5 ==> |Entries(ledger, keys[i], now)| < bounds[i] {
      assert |Entries(ledger, keys[0], now)| < bounds[0] && |Entries(ledger, keys[1], now)| < bounds[1];
      assert |Entries(ledger, keys[2], now)| < bounds[2] && |Entries(ledger, keys[3], now)| < bounds[3];
      assert |Entries(ledger, keys[4], now)| < bounds[4];
    }
  }

  lemma CheckAdmits(store: Store, ledger: Ledger, limits: Limits, tenant: Id, user: Id, now: int)
    requires Agrees(store, ledger, now)
    ensures Check(store, Keys(tenant, user), LimitSeq(limits), now).1 <==> Admits(ledger, limits, tenant, user, now)
  {
    CheckDecides(store, Keys(tenant, user), LimitSeq(limits), now);
    BelowLimits(ledger, limits, tenant, user, now);
    forall i | 0 <= i < 5
      ensures Live(store, Keys(tenant, user)[i], now) == Entries(ledger, Keys(tenant, user)[i], now)
    {
    }
  }

  lemma AcquireAgrees(store: Store, ledger: Ledger, limits: Limits, e: Event)
    requires Agrees(store, ledger, e.now) && LeasesGranted(ledger) && e.Acquired? && e.token !in ledger.grants
    ensures StoreStep(store, limits, e).1 == LedgerStep(ledger, limits, e).1
    ensures Agrees(StoreStep(store, limits, e).0, LedgerStep(ledger, limits, e).0, e.now)
  {
    var keys, bounds := Keys(e.tenant, e.user), LimitSeq(limits);
    CheckDecides(store, keys, bounds, e.now);
    CheckAdmits(store, ledger, limits, e.tenant, e.user, e.now);
    var checked := Check(store, keys, bounds, e.now);
    if checked.1 {
      KeysDistinct(e.tenant, e.user);
      AddAllEffect(checked.0, keys, e.token, e.now);
      forall key ensures Live(AddAll(checked.0, keys, e.token, e.now), key, e.now) ==
                         Entries(Granted(ledger, e.tenant, e.user, e.token, e.now), key, e.now) {
        KeysCount(key, e.tenant, e.user);
        GrantedEntries(ledger, e.tenant, e.user, e.token, e.now, key);
      }
    }
  }

  lemma RenewDecides(store: Store, ledger: Ledger, tenant: Id, user: Id, token: Id, now: int)
    requires Agrees(store, ledger, now)
    ensures Renew(store, tenant, user, token, now).1 <==> Owns(ledger, tenant, user, token) && ledger.leases[token].expiry > now
  {
    var keys := Keys(tenant, user)[..3];
    assert keys == [Global, TenantActive(tenant), UserActive(tenant, user)];
    forall i | 0 <= i < 3 ensures LiveIn(store, keys[i], token, now) <==> token in Entries(ledger, keys[i], now) {
      assert token in Live(store, keys[i], now) <==> LiveIn(store, keys[i], token, now);
    }
    assert LiveIn(store, keys[2], token, now) <==> token in Entries(ledger, UserActive(tenant, user), now);
    assert LiveIn(store, keys[1], token, now) <==> token in Entries(ledger, TenantActive(tenant), now);
    assert LiveIn(store, keys[0], token, now) <==> token in Entries(ledger, Global, now);
  }

  lemma RenewAgrees(store: Store, ledger: Ledger, limits: Limits, e: Event)
    requires Agrees(store, ledger, e.now) && e.Renewed?
    ensures StoreStep(store, limits, e).1 == LedgerStep(ledger, limits, e).1
    ensures Agrees(StoreStep(store, limits, e).0, LedgerStep(ledger, limits, e).0, e.now)
  {
    RenewDecides(store, ledger, e.tenant, e.user, e.token, e.now);
    var keys := Keys(e.tenant, e.user)[..3];
    if LedgerStep(ledger, limits, e).1 {
      KeysDistinct(e.tenant, e.user);
      AddAllEffect(store, keys, e.token, e.now);
      forall key ensures Live(AddAll(store, keys, e.token, e.now), key, e.now) ==
                         Entries(Extended(ledger, e.tenant, e.user, e.token, e.now), key, e.now) {
        KeysCount(key, e.tenant, e.user);
        ExtendedEntries(ledger, e.tenant, e.user, e.token, e.now, key);
      }
    }
  }

  lemma ReleaseAgrees(store: Store, ledger: Ledger, limits: Limits, e: Event)
    requires Agrees(store, ledger, e.now) && e.Released? && (e.token in ledger.leases ==> Owns(ledger, e.tenant, e.user, e.token))
    ensures Agrees(StoreStep(store, limits, e).0, LedgerStep(ledger, limits, e).0, e.now)
  {
    var keys := Keys(e.tenant, e.user)[..3];
    DropAllEffect(store, keys, e.token, e.now);
    assert LedgerStep(ledger, limits, e).0 == Returned(ledger, e.token);
    forall key ensures Live(DropAll(store, keys, e.token), key, e.now) == Entries(Returned(ledger, e.token), key, e.now) {
      KeysCount(key, e.tenant, e.user);
      ReturnedEntries(ledger, e.tenant, e.user, e.token, e.now, key);
    }
  }

  /** Key expiry never removes an entry that pruning would have kept. */
  lemma ExpiryRemovesOnlyStale(store: Store, key: Key, now: int)
    requires CoveredAll(store, now) && key in store && store[key].expiresAt.Some? && store[key].expiresAt.value <= now
    ensures Live(store, key, now) == map[]
    ensures forall other :: Live(store - {key}, other, now) == Live(store, other, now)
  {
    assert Covered(store, key, now);
    forall k | k in store[key].members ensures store[key].members[k] <= Horizon(key, now) {
    }
  }

  lemma ExpiryAgrees(store: Store, ledger: Ledger, limits: Limits, e: Event)
    requires Agrees(store, ledger, e.now) && e.KeyExpired?
    ensures Agrees(StoreStep(store, limits, e).0, LedgerStep(ledger, limits, e).0, e.now)
  {
    if StoreStep(store, limits, e).1 {
      ExpiryRemovesOnlyStale(store, e.key, e.now);
      forall k | k in store - {e.key} ensures Covered(store - {e.key}, k, e.now) {
        assert Covered(store, k, e.now);
      }
    }
  }

  /** Every step of the store is the ledger's step, with the same answer. */
  lemma StepAgrees(store: Store, ledger: Ledger, limits: Limits, clock: int, e: Event)
    requires Agrees(store, ledger, clock) && LeasesGranted(ledger) && Allowed(ledger, clock, e)
    ensures !e.KeyExpired? ==> StoreStep(store, limits, e).1 == LedgerStep(ledger, limits, e).1
    ensures Agrees(StoreStep(store, limits, e).0, LedgerStep(ledger, limits, e).0, e.now)
    ensures LeasesGranted(LedgerStep(ledger, limits, e).0)
  {
    AgreesLater(store, ledger, clock, e.now);
    match e
    case Acquired(_, _, _, _) => AcquireAgrees(store, ledger, limits, e);
    case Renewed(_, _, _, _) => RenewAgrees(store, ledger, limits, e);
    case Released(_, _, _, _) => ReleaseAgrees(store, ledger, limits, e);
    case KeyExpired(_, _) => ExpiryAgrees(store, ledger, limits, e);
  }

  // ---------------------------------------------------------------- limits

  ghost predicate WithinLimits(ledger: Ledger, limits: Limits, now: int) {
    forall key :: |Entries(ledger, key, now)| <= LimitOf(limits, key)
  }

  lemma FewerEntries(a: map<Id, int>, b: map<Id, int>)
    requires a.Keys <= b.Keys
    ensures |a| <= |b|
  {
    var rest := b.Keys - a.Keys;
    assert b.Keys == a.Keys + rest;
    assert |b.Keys| == |a.Keys| + |rest|;
  }

  lemma GrantWithinLimit(ledger: Ledger, limits: Limits, tenant: Id, user: Id, token: Id, now: int, key: Key)
    requires |Entries(ledger, key, now)| <= LimitOf(limits, key) && Admits(ledger, limits, tenant, user, now)
    requires token !in ledger.grants && token !in ledger.leases
    ensures |Entries(Granted(ledger, tenant, user, token, now), key, now)| <= LimitOf(limits, key)
  {
    GrantedEntries(ledger, tenant, user, token, now, key);
    assert Counts(key, tenant, user) ==> |Entries(ledger, key, now)| < LimitOf(limits, key);
  }

  lemma ExtensionWithinLimit(ledger: Ledger, tenant: Id, user: Id, token: Id, now: int, key: Key)
    requires Owns(ledger, tenant, user, token) && ledger.leases[token].expiry > now
    ensures |Entries(Extended(ledger, tenant, user, token, now), key, now)| <= |Entries(ledger, key, now)|
  {
    ExtendedEntries(ledger, tenant, user, token, now, key);
    FewerEntries(Entries(Extended(ledger, tenant, user, token, now), key, now), Entries(ledger, key, now));
  }

  lemma LimitsKept(ledger: Ledger, limits: Limits, clock: int, e: Event)
    requires WithinLimits(ledger, limits, clock) && LeasesGranted(ledger) && Allowed(ledger, clock, e)
    ensures WithinLimits(LedgerStep(ledger, limits, e).0, limits, e.now)
  {
    var after, changed := LedgerStep(ledger, limits, e).0, LedgerStep(ledger, limits, e).1;
    forall key ensures |Entries(after, key, e.now)| <= LimitOf(limits, key) {
      EntriesLater(ledger, key, clock, e.now);
      FewerEntries(Entries(ledger, key, e.now), Entries(ledger, key, clock));
      assert |Entries(ledger, key, clock)| <= LimitOf(limits, key);
      if e.Acquired? && changed {
        GrantWithinLimit(ledger, limits, e.tenant, e.user, e.token, e.now, key);
      } else if e.Renewed? && changed {
        ExtensionWithinLimit(ledger, e.tenant, e.user, e.token, e.now, key);
      } else if e.Released? && Owns(ledger, e.tenant, e.user, e.token) {
        ReturnedEntries(ledger, e.tenant, e.user, e.token, e.now, key);
        FewerEntries(Entries(after, key, e.now), Entries(ledger, key, e.now));
      }
    }
  }

  // ---------------------------------------------------------------- rates

  /** The grants counted against the same tenant up to and including this one, in the minute it closes. */
  function TenantMinute(ledger: Ledger, g: Grant): set<Id> {
    set k | k in ledger.grants && ledger.grants[k].order <= g.order && ledger.grants[k].tenant == g.tenant
            && ledger.grants[k].time > g.time - WINDOW_MS
  }

  function UserMinute(ledger: Ledger, g: Grant): set<Id> {
    set k | k in ledger.grants && ledger.grants[k].order <= g.order && ledger.grants[k].tenant == g.tenant
            && ledger.grants[k].user == g.user && ledger.grants[k].time > g.time - WINDOW_MS
  }

  /** Grants are numbered in the order of their times, and none is later than the clock. */
  ghost predicate Numbered(ledger: Ledger, clock: int) {
    && (forall k :: k in ledger.grants ==> ledger.grants[k].order < |ledger.grants| && ledger.grants[k].time <= clock)
    && (forall k, l :: k in ledger.grants && l in ledger.grants && ledger.grants[k].order <= ledger.grants[l].order ==>
          ledger.grants[k].time <= ledger.grants[l].time)
  }

  ghost predicate RatesKept(ledger: Ledger, limits: Limits) {
    forall k :: k in ledger.grants ==>
      |TenantMinute(ledger, ledger.grants[k])| <= limits.tenantPerMinute && |UserMinute(ledger, ledger.grants[k])| <= limits.userPerMinute
  }

  lemma GrantNumbered(ledger: Ledger, clock: int, tenant: Id, user: Id, token: Id, now: int)
    requires Numbered(ledger, clock) && clock <= now && token !in ledger.grants
    ensures Numbered(Granted(ledger, tenant, user, token, now), now)
  {
    assert |Granted(ledger, tenant, user, token, now).grants| == |ledger.grants| + 1;
  }

  lemma NewGrantTenantMinute(ledger: Ledger, tenant: Id, user: Id, token: Id, now: int)
    requires token !in ledger.grants && forall k :: k in ledger.grants ==> ledger.grants[k].order < |ledger.grants|
    ensures
      var after := Granted(ledger, tenant, user, token, now);
      TenantMinute(after, after.grants[token]) == Entries(ledger, TenantRate(tenant), now).Keys + {token}
  {
  }

  lemma NewGrantUserMinute(ledger: Ledger, tenant: Id, user: Id, token: Id, now: int)
    requires token !in ledger.grants && forall k :: k in ledger.grants ==> ledger.grants[k].order < |ledger.grants|
    ensures
      var after := Granted(ledger, tenant, user, token, now);
      UserMinute(after, after.grants[token]) == Entries(ledger, UserRate(tenant, user), now).Keys + {token}
  {
  }

  lemma OldGrantMinute(ledger: Ledger, tenant: Id, user: Id, token: Id, now: int, k: Id)
    requires token !in ledger.grants && k in ledger.grants && ledger.grants[k].order < |ledger.grants|
    ensures
      var after := Granted(ledger, tenant, user, token, now);
      && TenantMinute(after, after.grants[k]) == TenantMinute(ledger, ledger.grants[k])
      && UserMinute(after, after.grants[k]) == UserMinute(ledger, ledger.grants[k])
  {
  }

  lemma GrantRates(ledger: Ledger, limits: Limits, clock: int, tenant: Id, user: Id, token: Id, now: int)
    requires token !in ledger.grants && Numbered(ledger, clock) && RatesKept(ledger, limits)
    requires Admits(ledger, limits, tenant, user, now)
    ensures RatesKept(Granted(ledger, tenant, user, token, now), limits)
  {
    var after := Granted(ledger, tenant, user, token, now);
    forall k | k in after.grants
      ensures |TenantMinute(after, after.grants[k])| <= limits.tenantPerMinute
      ensures |UserMinute(after, after.grants[k])| <= limits.userPerMinute
    {
      if k == token {
        NewGrantTenantMinute(ledger, tenant, user, token, now);
        NewGrantUserMinute(ledger, tenant, user, token, now);
        assert |Entries(ledger, TenantRate(tenant), now).Keys| < limits.tenantPerMinute;
        assert |Entries(ledger, UserRate(tenant, user), now).Keys| < limits.userPerMinute;
      } else {
        OldGrantMinute(ledger, tenant, user, token, now, k);
      }
    }
  }

  lemma SameGrantsSameRates(ledger: Ledger, after: Ledger, limits: Limits)
    requires after.grants == ledger.grants && RatesKept(ledger, limits)
    ensures RatesKept(after, limits)
  {
    forall k | k in after.grants
      ensures |TenantMinute(after, after.grants[k])| <= limits.tenantPerMinute
      ensures |UserMinute(after, after.grants[k])| <= limits.userPerMinute
    {
      assert TenantMinute(after, after.grants[k]) == TenantMinute(ledger, ledger.grants[k]);
      assert UserMinute(after, after.grants[k]) == UserMinute(ledger, ledger.grants[k]);
    }
  }

  lemma RatesKeptStep(ledger: Ledger, limits: Limits, clock: int, e: Event)
    requires Allowed(ledger, clock, e) && Numbered(ledger, clock) && RatesKept(ledger, limits)
    ensures Numbered(LedgerStep(ledger, limits, e).0, e.now) && RatesKept(LedgerStep(ledger, limits, e).0, limits)
  {
    if e.Acquired? && Admits(ledger, limits, e.tenant, e.user, e.now) {
      GrantNumbered(ledger, clock, e.tenant, e.user, e.token, e.now);
      GrantRates(ledger, limits, clock, e.tenant, e.user, e.token, e.now);
    } else {
      SameGrantsSameRates(ledger, LedgerStep(ledger, limits, e).0, limits);
    }
  }

  /** The acquisitions accepted for a tenant, or for one of its users, in a window of one minute. */
  function TenantWindow(ledger: Ledger, tenant: Id, from: int): set<Id> {
    set k | k in ledger.grants && ledger.grants[k].tenant == tenant && from <= ledger.grants[k].time < from + WINDOW_MS
  }

  function UserWindow(ledger: Ledger, tenant: Id, user: Id, from: int): set<Id> {
    set k | k in ledger.grants && ledger.grants[k].tenant == tenant && ledger.grants[k].user == user
            && from <= ledger.grants[k].time < from + WINDOW_MS
  }

  lemma {:induction false} LastOf(ledger: Ledger, tokens: set<Id>) returns (last: Id)
    requires tokens != {} && forall k :: k in tokens ==> k in ledger.grants
    ensures last in tokens && forall k :: k in tokens ==> ledger.grants[k].order <= ledger.grants[last].order
    decreases tokens
  {
    var k :| k in tokens;
    if tokens == {k} {
      last := k;
    } else {
      var l := LastOf(ledger, tokens - {k});
      last := if ledger.grants[k].order <= ledger.grants[l].order then l else k;
    }
  }

  lemma SubsetSize<T>(a: set<T>, b: set<T>)
    requires a <= b
    ensures |a| <= |b|
  {
    assert b == a + (b - a);
    assert |b| == |a| + |b - a|;
  }

  /** However a one-minute window is placed, it holds no more accepted acquisitions than the tenant's rate allows, */
  lemma TenantWindowWithinRate(ledger: Ledger, limits: Limits, clock: int, tenant: Id, from: int)
    requires Numbered(ledger, clock) && RatesKept(ledger, limits)
    ensures |TenantWindow(ledger, tenant, from)| <= limits.tenantPerMinute
  {
    var window := TenantWindow(ledger, tenant, from);
    if window != {} {
      var last := LastOf(ledger, window);
      SubsetSize(window, TenantMinute(ledger, ledger.grants[last]));
    }
  }

  /** nor than the user's. */
  lemma UserWindowWithinRate(ledger: Ledger, limits: Limits, clock: int, tenant: Id, user: Id, from: int)
    requires Numbered(ledger, clock) && RatesKept(ledger, limits)
    ensures |UserWindow(ledger, tenant, user, from)| <= limits.userPerMinute
  {
    var window := UserWindow(ledger, tenant, user, from);
    if window != {} {
      var last := LastOf(ledger, window);
      SubsetSize(window, UserMinute(ledger, ledger.grants[last]));
    }
  }

  // ---------------------------------------------------------------- runs

  /** A run of the gate, the ledger kept beside it, and the answers both gave. */
  datatype Moment = Moment(store: Store, ledger: Ledger, clock: int)

  ghost predicate Run(moments: seq<Moment>, events: seq<Event>, limits: Limits) {
    && |moments| == |events| + 1
    && moments[0].store == map[]
    && moments[0].ledger == Ledger(map[], map[])
    && forall i :: 0 <= i < |events| ==> RunStep(moments, events, limits, i)
  }

  ghost predicate RunStep(moments: seq<Moment>, events: seq<Event>, limits: Limits, i: nat)
    requires |moments| == |events| + 1 && i < |events|
  {
    && Allowed(moments[i].ledger, moments[i].clock, events[i])
    && moments[i + 1] == Moment(StoreStep(moments[i].store, limits, events[i]).0,
                                LedgerStep(moments[i].ledger, limits, events[i]).0, events[i].now)
  }

  ghost predicate Consistent(m: Moment, limits: Limits) {
    && Agrees(m.store, m.ledger, m.clock)
    && LeasesGranted(m.ledger)
    && WithinLimits(m.ledger, limits, m.clock)
    && Numbered(m.ledger, m.clock)
    && RatesKept(m.ledger, limits)
  }

  lemma {:induction false} AlwaysConsistent(moments: seq<Moment>, events: seq<Event>, limits: Limits, k: nat)
    requires Run(moments, events, limits) && k < |moments|
    ensures Consistent(moments[k], limits)
  {
    if k == 0 {
      var m := moments[0];
      forall key ensures Live(m.store, key, m.clock) == Entries(m.ledger, key, m.clock) && |Entries(m.ledger, key, m.clock)| == 0 {
        assert Entries(m.ledger, key, m.clock) == map[];
      }
    } else {
      AlwaysConsistent(moments, events, limits, k - 1);
      assert RunStep(moments, events, limits, k - 1);
      var m, e := moments[k - 1], events[k - 1];
      StepAgrees(m.store, m.ledger, limits, m.clock, e);
      LimitsKept(m.ledger, limits, m.clock, e);
      RatesKeptStep(m.ledger, limits, m.clock, e);
    }
  }

  /** Main theorem: over every run the scripts admit and renew exactly as the ledger does. */
  lemma DecisionsAreTheLedgers(moments: seq<Moment>, events: seq<Event>, limits: Limits, i: nat)
    requires Run(moments, events, limits) && i < |events| && !events[i].KeyExpired?
    ensures StoreStep(moments[i].store, limits, events[i]).1 == LedgerStep(moments[i].ledger, limits, events[i]).1
  {
    AlwaysConsistent(moments, events, limits, i);
    assert RunStep(moments, events, limits, i);
    StepAgrees(moments[i].store, moments[i].ledger, limits, moments[i].clock, events[i]);
  }

  /** Live tokens never exceed the global, tenant and user limits, at the last event or at any later time. */
  lemma LiveNeverExceedsLimits(moments: seq<Moment>, events: seq<Event>, limits: Limits, k: nat, key: Key, now: int)
    requires Run(moments, events, limits) && k < |moments| && moments[k].clock <= now
    ensures |Live(moments[k].store, key, now)| <= LimitOf(limits, key)
  {
    AlwaysConsistent(moments, events, limits, k);
    var m := moments[k];
    EntriesLater(m.ledger, key, m.clock, now);
    FewerEntries(Entries(m.ledger, key, now), Entries(m.ledger, key, m.clock));
    AgreesLater(m.store, m.ledger, m.clock, now);
  }

  /** Accepted acquisitions in any one-minute window stay within the tenant and user rates. */
  lemma AcceptedWithinRates(moments: seq<Moment>, events: seq<Event>, limits: Limits, k: nat, tenant: Id, user: Id, from: int)
    requires Run(moments, events, limits) && k < |moments|
    ensures |TenantWindow(moments[k].ledger, tenant, from)| <= limits.tenantPerMinute
    ensures |UserWindow(moments[k].ledger, tenant, user, from)| <= limits.userPerMinute
  {
    AlwaysConsistent(moments, events, limits, k);
    TenantWindowWithinRate(moments[k].ledger, limits, moments[k].clock, tenant, from);
    UserWindowWithinRate(moments[k].ledger, limits, moments[k].clock, tenant, user, from);
  }

  lemma LeaseOwner(ledger: Ledger, token: Id, now: int)
    requires token in Entries(ledger, Global, now)
    ensures token in Entries(ledger, TenantActive(ledger.leases[token].tenant), now)
    ensures token in Entries(ledger, UserActive(ledger.leases[token].tenant, ledger.leases[token].user), now)
  {
  }

  lemma AgreesAt(moments: seq<Moment>, events: seq<Event>, limits: Limits, k: nat, key: Key, now: int)
    requires Run(moments, events, limits) && k < |moments| && moments[k].clock <= now
    ensures Live(moments[k].store, key, now) == Entries(moments[k].ledger, key, now)
  {
    AlwaysConsistent(moments, events, limits, k);
    AgreesLater(moments[k].store, moments[k].ledger, moments[k].clock, now);
  }

  /** The active sets agree: a live token of the global set is live for a tenant and a user, */
  lemma GlobalTokensHaveOwners(moments: seq<Moment>, events: seq<Event>, limits: Limits, k: nat, token: Id, now: int)
      returns (tenant: Id, user: Id)
    requires Run(moments, events, limits) && k < |moments| && moments[k].clock <= now
    requires token in Live(moments[k].store, Global, now)
    ensures token in Live(moments[k].store, TenantActive(tenant), now)
    ensures token in Live(moments[k].store, UserActive(tenant, user), now)
  {
    AgreesAt(moments, events, limits, k, Global, now);
    var lease := moments[k].ledger.leases[token];
    tenant, user := lease.tenant, lease.user;
    LeaseOwner(moments[k].ledger, token, now);
    AgreesAt(moments, events, limits, k, TenantActive(tenant), now);
    AgreesAt(moments, events, limits, k, UserActive(tenant, user), now);
  }

  /** and a token live for a user is live, until the same moment, for its tenant and globally, */
  lemma UserTokensCountEverywhere(moments: seq<Moment>, events: seq<Event>, limits: Limits, k: nat, tenant: Id, user: Id, token: Id, now: int)
    requires Run(moments, events, limits) && k < |moments| && moments[k].clock <= now
    requires token in Live(moments[k].store, UserActive(tenant, user), now)
    ensures
      var store := moments[k].store;
      && token in Live(store, TenantActive(tenant), now)
      && token in Live(store, Global, now)
      && Live(store, UserActive(tenant, user), now)[token] == Live(store, TenantActive(tenant), now)[token]
      && Live(store, UserActive(tenant, user), now)[token] == Live(store, Global, now)[token]
  {
    AgreesAt(moments, events, limits, k, Global, now);
    AgreesAt(moments, events, limits, k, TenantActive(tenant), now);
    AgreesAt(moments, events, limits, k, UserActive(tenant, user), now);
  }

  /** and no token is live for two tenants or two users. */
  lemma LiveTokensHaveOneOwner(moments: seq<Moment>, events: seq<Event>, limits: Limits, k: nat,
                               t: Id, u: Id, t': Id, u': Id, token: Id, now: int)
    requires Run(moments, events, limits) && k < |moments| && moments[k].clock <= now
    ensures token in Live(moments[k].store, TenantActive(t), now) && token in Live(moments[k].store, TenantActive(t'), now) ==> t == t'
    ensures token in Live(moments[k].store, UserActive(t, u), now) && token in Live(moments[k].store, UserActive(t', u'), now) ==>
              t == t' && u == u'
  {
    AgreesAt(moments, events, limits, k, TenantActive(t), now);
    AgreesAt(moments, events, limits, k, TenantActive(t'), now);
    AgreesAt(moments, events, limits, k, UserActive(t, u), now);
    AgreesAt(moments, events, limits, k, UserActive(t', u'), now);
  }

  lemma LiveLater(store: Store, key: Key, now: int, later: int)
    requires now <= later
    ensures Live(store, key, later) == Above(Live(store, key, now), Horizon(key, later))
  {
  }

  /** A rejected acquisition leaves every live entry as it was, even though it may have pruned stale ones. */
  lemma RejectionChangesNothingLive(store: Store, limits: Limits, tenant: Id, user: Id, token: Id, now: int, key: Key, later: int)
    requires CoveredAll(store, now) && !Acquire(store, limits, tenant, user, token, now).1 && now <= later
    ensures Live(Acquire(store, limits, tenant, user, token, now).0, key, later) == Live(store, key, later)
  {
    CheckDecides(store, Keys(tenant, user), LimitSeq(limits), now);
    LiveLater(Acquire(store, limits, tenant, user, token, now).0, key, now, later);
    LiveLater(store, key, now, later);
  }
}

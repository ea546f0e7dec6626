/** The three scripts in numbers: when a request is let in, until when its token counts, and when keys go. */
module GateEffects {
  import opened AdmissionLedger
  import opened AdmissionScripts
  import opened Prelude

  const LEASE: int := 120_000
  const MINUTE: int := 60_000

  /** The tokens of a set whose score is above the bound, with their scores. */
  function After(store: Store, key: Key, bound: int): map<Id, int> {
    map token | key in store && token in store[key].members && store[key].members[token] > bound :: store[key].members[token]
  }

  lemma LiveMeans(store: Store, key: Key, now: int)
    ensures Live(store, key, now) == After(store, key, if key.Global? || key.TenantActive? || key.UserActive? then now else now - MINUTE)
  {
  }

  lemma FiveKeys(tenant: Id, user: Id)
    ensures Keys(tenant, user) == [Global, TenantActive(tenant), UserActive(tenant, user), TenantRate(tenant), UserRate(tenant, user)]
    ensures Keys(tenant, user)[..3] == [Global, TenantActive(tenant), UserActive(tenant, user)]
  {
  }

  /** Every active set and both rates are below their limits. */
  predicate HasRoom(store: Store, limits: Limits, tenant: Id, user: Id, now: int) {
    && |After(store, Global, now)| < limits.global
    && |After(store, TenantActive(tenant), now)| < limits.tenant
    && |After(store, UserActive(tenant, user), now)| < limits.user
    && |After(store, TenantRate(tenant), now - MINUTE)| < limits.tenantPerMinute
    && |After(store, UserRate(tenant, user), now - MINUTE)| < limits.userPerMinute
  }

  lemma {:induction false} AddedExpiry(store: Store, keys: seq<Key>, token: Id, now: int, key: Key)
    requires key in keys && forall i, j :: 0 <= i < j < |keys| ==> keys[i] != keys[j]
    ensures
      var after := AddAll(store, keys, token, now);
      && key in after && token in after[key].members
      && after[key].members[token] == (if key.Global? || key.TenantActive? || key.UserActive? then now + LEASE else now)
      && after[key].expiresAt == Some(now + if key.Global? || key.TenantActive? || key.UserActive? then LEASE else MINUTE)
    decreases |keys|
  {
    var next := Add(store, keys[0], token, now);
    if key == keys[0] {
      AddedElsewhere(next, keys[1..], token, now, key);
    } else {
      AddedExpiry(next, keys[1..], token, now, key);
    }
  }

  lemma {:induction false} AddedElsewhere(store: Store, keys: seq<Key>, token: Id, now: int, key: Key)
    requires key !in keys
    ensures key in AddAll(store, keys, token, now) <==> key in store
    ensures key in store ==> AddAll(store, keys, token, now)[key] == store[key]
    decreases |keys|
  {
    if keys != [] {
      AddedElsewhere(Add(store, keys[0], token, now), keys[1..], token, now, key);
    }
  }

  /** What an acquisition decides: let in exactly when all five counts are below their limits. */
  lemma AcquisitionDecides(store: Store, limits: Limits, tenant: Id, user: Id, token: Id, now: int)
    requires CoveredAll(store, now)
    ensures Acquire(store, limits, tenant, user, token, now).1 <==> HasRoom(store, limits, tenant, user, now)
  {
    hide Check, Live, AddAll;
    var keys, bounds := Keys(tenant, user), LimitSeq(limits);
    FiveKeys(tenant, user);
    CheckDecides(store, keys, bounds, now);
    LiveMeans(store, keys[0], now);
    LiveMeans(store, keys[1], now);
    LiveMeans(store, keys[2], now);
    LiveMeans(store, keys[3], now);
    LiveMeans(store, keys[4], now);
    var below := forall i :: 0 <= i < 5 ==> |Live(store, keys[i], now)| < bounds[i];
    assert below ==> |Live(store, keys[0], now)| < bounds[0] && |Live(store, keys[1], now)| < bounds[1];
    assert below ==> |Live(store, keys[2], now)| < bounds[2] && |Live(store, keys[3], now)| < bounds[3];
    assert below ==> |Live(store, keys[4], now)| < bounds[4];
  }

  predicate Serves(key: Key, tenant: Id, user: Id) {
    key in {Global, TenantActive(tenant), UserActive(tenant, user)}
  }

  predicate Rates(key: Key, tenant: Id, user: Id) {
    key in {TenantRate(tenant), UserRate(tenant, user)}
  }

  /** What a successful acquisition writes: the token counts for two minutes in the three active sets and for one in the two
      rates, the keys live as long, and nothing else that counts changes; a refused one changes nothing that counts. */
  lemma AcquisitionWrites(store: Store, limits: Limits, tenant: Id, user: Id, token: Id, now: int, key: Key)
    requires CoveredAll(store, now)
    ensures
      var (after, ok) := Acquire(store, limits, tenant, user, token, now);
      if ok && Serves(key, tenant, user) then
        && After(after, key, now) == After(store, key, now)[token := now + LEASE]
        && key in after && after[key].expiresAt == Some(now + LEASE)
      else if ok && Rates(key, tenant, user) then
        && After(after, key, now - MINUTE) == After(store, key, now - MINUTE)[token := now]
        && key in after && after[key].expiresAt == Some(now + MINUTE)
      else
        var bound := if key.Global? || key.TenantActive? || key.UserActive? then now else now - MINUTE;
        After(after, key, bound) == After(store, key, bound)
  {
    hide Check, Live, AddAll;
    var keys := Keys(tenant, user);
    FiveKeys(tenant, user);
    KeysDistinct(tenant, user);
    CheckDecides(store, keys, LimitSeq(limits), now);
    var (checked, ok) := Check(store, keys, LimitSeq(limits), now);
    LiveMeans(store, key, now);
    LiveMeans(checked, key, now);
    if ok {
      AddAllEffect(checked, keys, token, now);
      LiveMeans(AddAll(checked, keys, token, now), key, now);
      if key in keys {
        AddedExpiry(checked, keys, token, now, key);
      }
    }
  }

  /** A renewal is granted exactly while the token is live in all three active sets, and then counts for two more minutes
      from now; a refused one changes nothing. */
  lemma RenewalMeans(store: Store, tenant: Id, user: Id, token: Id, now: int, key: Key)
    requires CoveredAll(store, now)
    ensures
      var (after, ok) := Renew(store, tenant, user, token, now);
      && (ok <==> && token in After(store, Global, now) && token in After(store, TenantActive(tenant), now)
                  && token in After(store, UserActive(tenant, user), now))
      && (!ok ==> after == store)
      && (ok && Serves(key, tenant, user) ==>
            && After(after, key, now) == After(store, key, now)[token := now + LEASE]
            && key in after && after[key].expiresAt == Some(now + LEASE))
      && (!Serves(key, tenant, user) ==> (key in after <==> key in store) && (key in store ==> after[key] == store[key]))
  {
    hide Live, AddAll;
    FiveKeys(tenant, user);
    var keys := Keys(tenant, user)[..3];
    if forall i :: 0 <= i < 3 ==> LiveIn(store, keys[i], token, now) {
      assert LiveIn(store, keys[0], token, now) && LiveIn(store, keys[1], token, now) && LiveIn(store, keys[2], token, now);
    } else {
      var i :| 0 <= i < 3 && !LiveIn(store, keys[i], token, now);
      assert keys[i] in {Global, TenantActive(tenant), UserActive(tenant, user)};
    }
    AddAllEffect(store, keys, token, now);
    LiveMeans(store, key, now);
    LiveMeans(AddAll(store, keys, token, now), key, now);
    if key in keys {
      AddedExpiry(store, keys, token, now, key);
    } else {
      AddedElsewhere(store, keys, token, now, key);
    }
  }

  /** A release takes the token out of the three active sets and leaves the rates. */
  lemma ReleaseMeans(store: Store, tenant: Id, user: Id, token: Id, now: int, key: Key)
    requires CoveredAll(store, now)
    ensures
      var after := Release(store, tenant, user, token);
      && (Serves(key, tenant, user) ==> After(after, key, now) == After(store, key, now) - {token})
      && (!Serves(key, tenant, user) ==> (key in after <==> key in store) && (key in store ==> after[key] == store[key]))
  {
    hide Live, DropAll;
    FiveKeys(tenant, user);
    var keys := Keys(tenant, user)[..3];
    DropAllEffect(store, keys, token, now);
    LiveMeans(store, key, now);
    LiveMeans(DropAll(store, keys, token), key, now);
    if key !in keys {
      DroppedElsewhere(store, keys, token, key);
    }
  }

  lemma {:induction false} DroppedElsewhere(store: Store, keys: seq<Key>, token: Id, key: Key)
    requires key !in keys
    ensures key in DropAll(store, keys, token) <==> key in store
    ensures key in store ==> DropAll(store, keys, token)[key] == store[key]
    decreases |keys|
  {
    if keys != [] {
      DroppedElsewhere(Drop(store, keys[0], token), keys[1..], token, key);
    }
  }

  // ---------------------------------------------------------------- keys

  /** Redis has no empty sorted sets. */
  ghost predicate NoEmptySets(store: Store) {
    forall key :: key in store ==> store[key].members != map[]
  }

  lemma PrunedNotEmpty(store: Store, key: Key, bound: int)
    requires NoEmptySets(store)
    ensures NoEmptySets(Prune(store, key, bound))
  {
  }

  lemma {:induction false} CheckedNotEmpty(store: Store, keys: seq<Key>, limits: seq<nat>, now: int)
    requires |keys| == |limits| && NoEmptySets(store)
    ensures NoEmptySets(Check(store, keys, limits, now).0)
    decreases |keys|
  {
    hide NoEmptySets, Prune;
    if keys != [] {
      PrunedNotEmpty(store, keys[0], Horizon(keys[0], now));
      CheckedNotEmpty(Prune(store, keys[0], Horizon(keys[0], now)), keys[1..], limits[1..], now);
    }
  }

  lemma {:induction false} AddedNotEmpty(store: Store, keys: seq<Key>, token: Id, now: int)
    requires NoEmptySets(store)
    ensures NoEmptySets(AddAll(store, keys, token, now))
    decreases |keys|
  {
    if keys != [] {
      assert token in Add(store, keys[0], token, now)[keys[0]].members;
      AddedNotEmpty(Add(store, keys[0], token, now), keys[1..], token, now);
    }
  }

  lemma {:induction false} DroppedNotEmpty(store: Store, keys: seq<Key>, token: Id)
    requires NoEmptySets(store)
    ensures NoEmptySets(DropAll(store, keys, token))
    decreases |keys|
  {
    if keys != [] {
      DroppedNotEmpty(Drop(store, keys[0], token), keys[1..], token);
    }
  }

  /** The scripts never leave an empty set behind. */
  lemma ScriptsLeaveNoEmptySets(store: Store, limits: Limits, tenant: Id, user: Id, token: Id, now: int)
    requires NoEmptySets(store)
    ensures NoEmptySets(Acquire(store, limits, tenant, user, token, now).0)
    ensures NoEmptySets(Renew(store, tenant, user, token, now).0) && NoEmptySets(Release(store, tenant, user, token))
  {
    hide NoEmptySets, Check, AddAll, DropAll;
    var keys := Keys(tenant, user);
    CheckedNotEmpty(store, keys, LimitSeq(limits), now);
    AddedNotEmpty(Check(store, keys, LimitSeq(limits), now).0, keys, token, now);
    AddedNotEmpty(store, keys[..3], token, now);
    DroppedNotEmpty(store, keys[..3], token);
  }
}

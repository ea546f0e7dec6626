/** The Redis admission scripts: five sorted sets with lazily pruned members and key-level expiry. */
module AdmissionScripts {
  import opened Prelude

  type Id = string

  const LEASE_MS: int := 120000
  const WINDOW_MS: int := 60000

  /** The keys a request touches; the first three hold active leases, the last two the last minute's grants. */
  datatype Key = Global | TenantActive(tenant: Id) | UserActive(tenant: Id, user: Id) | TenantRate(tenant: Id) | UserRate(tenant: Id, user: Id)

  predicate Active(key: Key) {
    key.Global? || key.TenantActive? || key.UserActive?
  }

  function Keys(tenant: Id, user: Id): (keys: seq<Key>)
    ensures |keys| == 5
  {
    [Global, TenantActive(tenant), UserActive(tenant, user), TenantRate(tenant), UserRate(tenant, user)]
  }

  datatype Limits = Limits(global: nat, tenant: nat, user: nat, tenantPerMinute: nat, userPerMinute: nat)

  function LimitSeq(limits: Limits): (s: seq<nat>)
    ensures |s| == 5
  {
    [limits.global, limits.tenant, limits.user, limits.tenantPerMinute, limits.userPerMinute]
  }

  function LimitOf(limits: Limits, key: Key): nat {
    match key
    case Global => limits.global
    case TenantActive(_) => limits.tenant
    case UserActive(_, _) => limits.user
    case TenantRate(_) => limits.tenantPerMinute
    case UserRate(_, _) => limits.userPerMinute
  }

  /** A sorted set: members with scores, and the time its key expires. An empty set has no key. */
  datatype SortedSet = SortedSet(members: map<Id, int>, expiresAt: Option<int>)

  type Store = map<Key, SortedSet>

  function Members(store: Store, key: Key): map<Id, int> {
    if key in store then store[key].members else map[]
  }

  /** Members with scores up to here are stale: expired leases, or grants older than the window. */
  function Horizon(key: Key, now: int): int {
    if Active(key) then now else now - WINDOW_MS
  }

  function Score(key: Key, now: int): int {
    if Active(key) then now + LEASE_MS else now
  }

  function Deadline(key: Key, now: int): int {
    now + if Active(key) then LEASE_MS else WINDOW_MS
  }

  // ---------------------------------------------------------------- the Redis commands

  function Above(members: map<Id, int>, bound: int): map<Id, int> {
    map token | token in members && members[token] > bound :: members[token]
  }

  /** ZREMRANGEBYSCORE key -inf bound. */
  function Prune(store: Store, key: Key, bound: int): Store {
    if key !in store then store
    else
      var kept := Above(store[key].members, bound);
      if kept == map[] then store - {key} else store[key := store[key].(members := kept)]
  }

  /** ZADD followed by PEXPIRE. */
  function Add(store: Store, key: Key, token: Id, now: int): Store {
    store[key := SortedSet(Members(store, key)[token := Score(key, now)], Some(Deadline(key, now)))]
  }

  /** ZREM. */
  function Drop(store: Store, key: Key, token: Id): Store {
    if key !in store || token !in store[key].members then store
    else
      var kept := store[key].members - {token};
      if kept == map[] then store - {key} else store[key := store[key].(members := kept)]
  }

  // ---------------------------------------------------------------- the scripts

  /** Prunes and counts key by key, stopping at the first full one. */
  function Check(store: Store, keys: seq<Key>, limits: seq<nat>, now: int): (Store, bool)
    requires |keys| == |limits|
    decreases |keys|
  {
    if keys == [] then (store, true)
    else
      var pruned := Prune(store, keys[0], Horizon(keys[0], now));
      if |Members(pruned, keys[0])| >= limits[0] then (pruned, false)
      else Check(pruned, keys[1..], limits[1..], now)
  }

  function AddAll(store: Store, keys: seq<Key>, token: Id, now: int): Store
    decreases |keys|
  {
    if keys == [] then store else AddAll(Add(store, keys[0], token, now), keys[1..], token, now)
  }

  function DropAll(store: Store, keys: seq<Key>, token: Id): Store
    decreases |keys|
  {
    if keys == [] then store else DropAll(Drop(store, keys[0], token), keys[1..], token)
  }

  function Acquire(store: Store, limits: Limits, tenant: Id, user: Id, token: Id, now: int): (Store, bool) {
    var checked := Check(store, Keys(tenant, user), LimitSeq(limits), now);
    if checked.1 then (AddAll(checked.0, Keys(tenant, user), token, now), true) else checked
  }

  predicate LiveIn(store: Store, key: Key, token: Id, now: int) {
    token in Members(store, key) && Members(store, key)[token] > now
  }

  function Renew(store: Store, tenant: Id, user: Id, token: Id, now: int): (Store, bool) {
    var keys := Keys(tenant, user)[..3];
    if forall i :: 0 <= i < 3 ==> LiveIn(store, keys[i], token, now) then (AddAll(store, keys, token, now), true)
    else (store, false)
  }

  function Release(store: Store, tenant: Id, user: Id, token: Id): Store {
    DropAll(store, Keys(tenant, user)[..3], token)
  }
}

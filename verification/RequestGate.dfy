/** The gate as a program over its store, command by command in the order of the scripts. */
module RequestGate {
  import opened AdmissionScripts
  import Scripts = AdmissionScripts

  class Gate {
    var store: Store
    const limits: Limits

    constructor (limits: Limits)
      ensures store == map[] && this.limits == limits
    {
      this.limits := limits;
      store := map[];
    }

    method Acquire(tenant: Id, user: Id, token: Id, now: int) returns (accepted: bool)
      modifies this
      ensures (store, accepted) == Scripts.Acquire(old(store), limits, tenant, user, token, now)
    {
      var keys, bounds := Keys(tenant, user), LimitSeq(limits);
      for i := 0 to 5
        invariant Check(old(store), keys, bounds, now) == Check(store, keys[i..], bounds[i..], now)
      {
        assert keys[i..][0] == keys[i] && keys[i..][1..] == keys[i + 1..];
        assert bounds[i..][0] == bounds[i] && bounds[i..][1..] == bounds[i + 1..];
        store := Prune(store, keys[i], Horizon(keys[i], now));
        if |Members(store, keys[i])| >= bounds[i] {
          return false;
        }
      }
      ghost var checked := store;
      for i := 0 to 5
        invariant AddAll(checked, keys, token, now) == AddAll(store, keys[i..], token, now)
      {
        assert keys[i..][0] == keys[i] && keys[i..][1..] == keys[i + 1..];
        store := Add(store, keys[i], token, now);
      }
      return true;
    }

    method Renew(tenant: Id, user: Id, token: Id, now: int) returns (renewed: bool)
      modifies this
      ensures (store, renewed) == Scripts.Renew(old(store), tenant, user, token, now)
    {
      var keys := Keys(tenant, user)[..3];
      for i := 0 to 3
        invariant forall k :: 0 <= k < i ==> LiveIn(store, keys[k], token, now)
        invariant store == old(store)
      {
        if !LiveIn(store, keys[i], token, now) {
          return false;
        }
      }
      for i := 0 to 3
        invariant AddAll(old(store), keys, token, now) == AddAll(store, keys[i..], token, now)
      {
        assert keys[i..][0] == keys[i] && keys[i..][1..] == keys[i + 1..];
        store := Add(store, keys[i], token, now);
      }
      return true;
    }

    method Release(tenant: Id, user: Id, token: Id)
      modifies this
      ensures store == Scripts.Release(old(store), tenant, user, token)
    {
      var keys := Keys(tenant, user)[..3];
      for i := 0 to 3
        invariant DropAll(old(store), keys, token) == DropAll(store, keys[i..], token)
      {
        assert keys[i..][0] == keys[i] && keys[i..][1..] == keys[i + 1..];
        store := Drop(store, keys[i], token);
      }
    }
  }
}

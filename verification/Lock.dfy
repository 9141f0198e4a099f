/** `tryAcquireLock` and `releaseLock` against a Redis server reached over a lossy connection. */
module Lock {
  import opened Connection
  import opened LockSpec

  class RedisServer {
    var store: map<string, Entry>
    var now: int
    ghost var grants: seq<Grant>
    ghost var freed: map<string, int>

    ghost function View(): State
      reads this
    {
      State(store, now, grants, freed)
    }

    constructor ()
      ensures View() == Initial
    {
      store, now := map[], 0;
      grants, freed := [], map[];
    }

    /** Expired keys are absent for every command. */
    predicate Alive(key: string)
      reads this
    {
      key in store && now < store[key].expiresAt
    }

    method Set(key: string, value: string, ttl: int) returns (ok: bool)
      modifies this
      ensures ok == !Live(old(View()), key)
      ensures View() == SetNx(old(View()), key, value, ttl)
    {
      if Alive(key) { return false; }
      store := store[key := Entry(value, now + ttl)];
      grants := grants + [Grant(key, value, now, now + ttl)];
      return true;
    }

    method Eval(key: string, value: string)
      modifies this
      ensures View() == CompareAndDelete(old(View()), key, value)
    {
      if Alive(key) && store[key].token == value {
        store := store - {key};
        freed := freed[value := now];
      }
    }
  }

  method TryAcquireLock(redis: RedisServer, key: string, ttlSeconds: int, token: string, net: Net)
    returns (r: Acquisition)
    modifies redis
    ensures r == Report(old(redis.View()), TryAcquire(key, ttlSeconds, token, net))
    ensures redis.View() == Step(old(redis.View()), TryAcquire(key, ttlSeconds, token, net))
  {
    if net.Undelivered? { return Unavailable; }
    var ok := redis.Set(key, token, ttlSeconds);
    if net.ReplyLost? { return Unavailable; }
    if ok { return Acquired(key, token); }
    return Held;
  }

  method ReleaseLock(redis: RedisServer, key: string, token: string, net: Net)
    modifies redis
    ensures redis.View() == Step(old(redis.View()), Release(key, token, net))
  {
    if net.Undelivered? { return; }
    redis.Eval(key, token);
  }
}

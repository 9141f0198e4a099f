/** The `ReplayProtection` class: in memory over an event loop with timers, or on Redis. */
module Replay {
  import opened Wrappers
  import opened Connection
  import opened ReplaySpec
  import opened ReplayProofs

  /** The host's timers: armed, cleared, and handed to the loop when they are due. */
  class EventLoop {
    var pending: map<int, Timer>
    var nextId: int
    var now: int

    constructor ()
      ensures pending == map[] && nextId == 0 && now == 0
    {
      pending, nextId, now := map[], 0, 0;
    }

    method SetTimeout(key: string, delay: int) returns (id: int)
      modifies this
      ensures id == old(nextId) && nextId == old(nextId) + 1 && now == old(now)
      ensures pending == old(pending)[id := Timer(key, now + delay)]
    {
      id := nextId;
      pending := pending[id := Timer(key, now + delay)];
      nextId := nextId + 1;
    }

    method ClearTimeout(id: int)
      modifies this
      ensures pending == old(pending) - {id} && nextId == old(nextId) && now == old(now)
    {
      pending := pending - {id};
    }
  }

  /** The commands of the Redis server; `net` is what happens to the request. */
  class RedisClient {
    var expiry: map<string, int>
    var now: int

    ghost function View(): Store
      reads this
    {
      Store(expiry, now)
    }

    predicate Alive(key: string)
      reads this
    {
      key in expiry && now < expiry[key]
    }

    /** EXISTS; None is an error. */
    method Exists(key: string, net: Net) returns (r: Option<bool>)
      ensures r == if net.Answered? then Some(Holds(View(), key)) else None
    {
      if !net.Answered? { return None; }
      return Some(Alive(key));
    }

    /** SET with EX, and with NX if `onlyNew`; None is an error. */
    method Set(key: string, seconds: int, onlyNew: bool, net: Net) returns (r: Option<bool>)
      modifies this
      ensures r == if net.Answered? then Some(!(onlyNew && Holds(old(View()), key))) else None
      ensures now == old(now)
      ensures expiry == if net.Undelivered? || (onlyNew && Holds(old(View()), key)) then old(expiry)
                        else old(expiry)[key := now + 1000 * seconds]
    {
      if net.Undelivered? { return None; }
      var refused := onlyNew && Alive(key);
      if !refused {
        expiry := expiry[key := now + 1000 * seconds];
      }
      return if net.Answered? then Some(!refused) else None;
    }

    method Del(key: string, net: Net) returns (ok: bool)
      modifies this
      ensures ok == net.Answered? && now == old(now)
      ensures expiry == if net.Undelivered? then old(expiry) else old(expiry) - {key}
    {
      if net.Undelivered? { return false; }
      expiry := expiry - {key};
      return net.Answered?;
    }
  }

  const KEY_PREFIX := "x402:replay:"

  /** The store after a request with effect `a`. */
  function After(r: Store, a: Action, net: Net): Store {
    if net.Undelivered? then r else StoreStep(r, a, StoreWins(r, a))
  }

  /** Only a request that arrives has an effect, and a lost reply does not undo it. */
  lemma LostReplyHasEffect(r: Store, a: Action)
    ensures After(r, a, Undelivered) == r
    ensures After(r, a, ReplyLost) == After(r, a, Answered) == StoreStep(r, a, StoreWins(r, a))
  {
  }

  /** With a Redis client every operation is one request to it; without one the object keeps the
      hashes itself. None is an exception, which only Redis mode can raise. */
  class ReplayProtection {
    const redis: RedisClient?
    const loop: EventLoop
    var usedPayments: set<string>
    var expiryTimers: map<string, int>

    ghost function View(): State
      reads this, loop
    {
      State(usedPayments, expiryTimers, loop.pending, loop.nextId, loop.now)
    }

    ghost function Shared(): Store
      reads this, redis
    {
      if redis == null then Store(map[], 0) else redis.View()
    }

    constructor (redis: RedisClient?, loop: EventLoop)
      requires loop.pending == map[]
      ensures this.redis == redis && this.loop == loop && Good(View()) && usedPayments == {}
    {
      this.redis, this.loop, usedPayments, expiryTimers := redis, loop, {}, map[];
    }

    method IsUsed(txHash: string, net: Net) returns (r: Option<bool>)
      ensures redis == null ==> r == Some(txHash in View().used)
      ensures redis != null ==> r == if net.Answered? then Some(Holds(Shared(), KEY_PREFIX + txHash)) else None
    {
      if redis != null {
        r := redis.Exists(KEY_PREFIX + txHash, net);
        return;
      }
      return Some(txHash in usedPayments);
    }

    method Claim(txHash: string, ttlSeconds: Ttl, net: Net) returns (won: Option<bool>)
      modifies this, redis, loop
      ensures redis == null ==>
        && won == Some(Wins(old(View()), ReplaySpec.Claim(txHash, ttlSeconds)))
        && View() == Step(old(View()), ReplaySpec.Claim(txHash, ttlSeconds))
      ensures redis != null ==>
        var a := ReplaySpec.Claim(KEY_PREFIX + txHash, ttlSeconds);
        && won == (if net.Answered? then Some(StoreWins(old(Shared()), a)) else None)
        && Shared() == After(old(Shared()), a, net) && View() == old(View())
    {
      if redis != null {
        won := redis.Set(KEY_PREFIX + txHash, ttlSeconds, true, net);
        return;
      }
      if txHash in usedPayments { return Some(false); }
      var _ := MarkUsed(txHash, ttlSeconds, net);
      return Some(true);
    }

    method MarkUsed(txHash: string, ttlSeconds: Ttl, net: Net) returns (ok: bool)
      modifies this, redis, loop
      ensures redis == null ==> ok && View() == Step(old(View()), ReplaySpec.MarkUsed(txHash, ttlSeconds))
      ensures redis != null ==>
        && ok == net.Answered? && View() == old(View())
        && Shared() == After(old(Shared()), ReplaySpec.MarkUsed(KEY_PREFIX + txHash, ttlSeconds), net)
    {
      if redis != null {
        var reply := redis.Set(KEY_PREFIX + txHash, ttlSeconds, false, net);
        return reply.Some?;
      }
      usedPayments := usedPayments + {txHash};
      if txHash in expiryTimers {
        loop.ClearTimeout(expiryTimers[txHash]);
      }
      var id := loop.SetTimeout(txHash, ttlSeconds * 1000);
      expiryTimers := expiryTimers[txHash := id];
      return true;
    }

    /** Best effort: an error of Redis is swallowed. */
    method Release(txHash: string, net: Net)
      modifies this, redis, loop
      ensures redis == null ==> View() == Step(old(View()), ReplaySpec.Release(txHash))
      ensures redis != null ==>
        && View() == old(View())
        && Shared() == After(old(Shared()), ReplaySpec.Release(KEY_PREFIX + txHash), net)
    {
      if redis != null {
        var _ := redis.Del(KEY_PREFIX + txHash, net);
        return;
      }
      usedPayments := usedPayments - {txHash};
      if txHash in expiryTimers {
        loop.ClearTimeout(expiryTimers[txHash]);
        expiryTimers := expiryTimers - {txHash};
      }
    }

    /** The event loop runs a due timer: it leaves the loop, then its callback frees the hash. */
    method Fire(id: int)
      requires CanFire(View(), id)
      modifies this, loop
      ensures View() == Step(old(View()), ReplaySpec.Fire(id))
    {
      var txHash := loop.pending[id].key;
      loop.ClearTimeout(id);
      usedPayments := usedPayments - {txHash};
      expiryTimers := expiryTimers - {txHash};
    }
  }
}

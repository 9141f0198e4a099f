/** Mutual exclusion of the lock over every run. */
module LockProofs {
  import opened Connection
  import opened LockSpec

  /** Grant `i` is the latest applied SET of its key. */
  ghost predicate Latest(s: State, i: int)
    requires 0 <= i < |s.grants|
  {
    forall j | i < j < |s.grants| :: s.grants[j].key != s.grants[i].key
  }

  ghost predicate Stored(s: State, g: Grant) {
    g.key in s.store && s.store[g.key] == Entry(g.token, g.until)
  }

  ghost predicate FreedBy(s: State, g: Grant, time: int) {
    g.token in s.freed && s.freed[g.token] <= time
  }

  ghost predicate InThePast(s: State) {
    && (forall i | 0 <= i < |s.grants| :: s.grants[i].at <= s.now)
    && (forall t | t in s.freed :: s.freed[t] <= s.now)
  }

  ghost predicate StoresLatest(s: State, key: string) {
    exists i :: 0 <= i < |s.grants| && s.grants[i].key == key && Latest(s, i) && Stored(s, s.grants[i])
  }

  /** The stored value is always the token of the latest applied SET of its key. */
  ghost predicate StoreIsLatest(s: State) {
    forall k | k in s.store :: StoresLatest(s, k)
  }

  ghost predicate KeptOrFreed(s: State, i: int)
    requires 0 <= i < |s.grants|
  {
    Stored(s, s.grants[i]) || FreedBy(s, s.grants[i], s.now)
  }

  /** The latest grant of a key is stored until a release of its own token deletes it. */
  ghost predicate LatestIsKept(s: State) {
    forall i | 0 <= i < |s.grants| && Latest(s, i) :: KeptOrFreed(s, i)
  }

  /** An earlier grant had run out or been released when a later one of its key began. */
  ghost predicate Apart(s: State, i: int, j: int)
    requires 0 <= i < |s.grants| && 0 <= j < |s.grants|
  {
    s.grants[i].key == s.grants[j].key ==>
      s.grants[i].until <= s.grants[j].at || FreedBy(s, s.grants[i], s.grants[j].at)
  }

  ghost predicate Separated(s: State) {
    forall i, j | 0 <= i < j < |s.grants| :: Apart(s, i, j)
  }

  ghost predicate Good(s: State) {
    InThePast(s) && StoreIsLatest(s) && LatestIsKept(s) && Separated(s)
  }

  ghost predicate DistinctTokens(s: State) {
    forall i, j | 0 <= i < j < |s.grants| :: s.grants[i].token != s.grants[j].token
  }

  ghost function LastGrant(s: State, key: string, n: nat): (r: int)
    requires n <= |s.grants|
    ensures -1 <= r < n
    ensures r >= 0 ==> s.grants[r].key == key
    ensures forall j | r < j < n :: s.grants[j].key != key
  {
    if n == 0 then -1 else if s.grants[n - 1].key == key then n - 1 else LastGrant(s, key, n - 1)
  }

  /** A key that is free has no grant that is still running and was not released. */
  lemma FreeKeyHasNoRunningGrant(s: State, key: string, i: int)
    requires Good(s) && !Live(s, key)
    requires 0 <= i < |s.grants| && s.grants[i].key == key
    ensures s.grants[i].until <= s.now || FreedBy(s, s.grants[i], s.now)
  {
    var last := LastGrant(s, key, |s.grants|);
    assert Latest(s, last) && KeptOrFreed(s, last);
    if i < last {
      assert Apart(s, i, last);
    }
  }

  lemma LatestAfterSet(s: State, key: string, token: string, ttl: int, i: int)
    requires !Live(s, key) && 0 <= i < |s.grants|
    ensures Latest(SetNx(s, key, token, ttl), i) <==> Latest(s, i) && s.grants[i].key != key
  {
    var s', n := SetNx(s, key, token, ttl), |s.grants|;
    assert forall j | 0 <= j < n :: s'.grants[j] == s.grants[j];
    assert s'.grants[n].key == key;
  }

  lemma SetNxStore(s: State, key: string, token: string, ttl: int)
    requires Good(s) && !Live(s, key)
    ensures StoreIsLatest(SetNx(s, key, token, ttl))
  {
    var s', n := SetNx(s, key, token, ttl), |s.grants|;
    forall k | k in s'.store ensures StoresLatest(s', k) {
      if k == key {
        assert Latest(s', n) && Stored(s', s'.grants[n]);
      } else {
        assert StoresLatest(s, k);
        var i :| 0 <= i < n && s.grants[i].key == k && Latest(s, i) && Stored(s, s.grants[i]);
        LatestAfterSet(s, key, token, ttl, i);
        assert s'.grants[i] == s.grants[i] && Stored(s', s'.grants[i]);
      }
    }
  }

  lemma SetNxLatest(s: State, key: string, token: string, ttl: int)
    requires Good(s) && !Live(s, key)
    ensures LatestIsKept(SetNx(s, key, token, ttl))
  {
    var s', n := SetNx(s, key, token, ttl), |s.grants|;
    forall i | 0 <= i < |s'.grants| && Latest(s', i) ensures KeptOrFreed(s', i) {
      if i < n {
        LatestAfterSet(s, key, token, ttl, i);
        assert KeptOrFreed(s, i);
      }
    }
  }

  lemma SetNxGood(s: State, key: string, token: string, ttl: int)
    requires Good(s) && 1 <= ttl
    ensures Good(SetNx(s, key, token, ttl))
  {
    if !Live(s, key) {
      SetNxStore(s, key, token, ttl);
      SetNxLatest(s, key, token, ttl);
      var s', n := SetNx(s, key, token, ttl), |s.grants|;
      forall i, j | 0 <= i < j < |s'.grants| ensures Apart(s', i, j) {
        if j < n {
          assert Apart(s, i, j);
        } else if s.grants[i].key == key {
          FreeKeyHasNoRunningGrant(s, key, i);
        }
      }
    }
  }

  /** The grant whose token a release deletes. */
  lemma Owner(s: State, key: string) returns (i: int)
    requires Good(s) && key in s.store
    ensures 0 <= i < |s.grants| && s.grants[i].key == key && Latest(s, i) && Stored(s, s.grants[i])
    ensures forall j | 0 <= j < |s.grants| && Latest(s, j) && s.grants[j].key == key :: j == i
  {
    assert StoresLatest(s, key);
    i :| 0 <= i < |s.grants| && s.grants[i].key == key && Latest(s, i) && Stored(s, s.grants[i]);
  }

  lemma DeleteKeeps(s: State, key: string, i: int)
    requires Good(s) && DistinctTokens(s) && key in s.store
    requires 0 <= i < |s.grants| && s.grants[i].key == key && Latest(s, i) && Stored(s, s.grants[i])
    requires forall j | 0 <= j < |s.grants| && Latest(s, j) && s.grants[j].key == key :: j == i
    ensures var s' := s.(store := s.store - {key}, freed := s.freed[s.grants[i].token := s.now]);
            StoreIsLatest(s') && LatestIsKept(s')
  {
    var s' := s.(store := s.store - {key}, freed := s.freed[s.grants[i].token := s.now]);
    assert forall j | 0 <= j < |s.grants| :: Latest(s', j) <==> Latest(s, j);
    forall k | k in s'.store ensures StoresLatest(s', k) {
      assert StoresLatest(s, k);
      var j :| 0 <= j < |s.grants| && s.grants[j].key == k && Latest(s, j) && Stored(s, s.grants[j]);
      assert Latest(s', j) && Stored(s', s'.grants[j]);
    }
    forall j | 0 <= j < |s'.grants| && Latest(s', j) ensures KeptOrFreed(s', j) {
      assert KeptOrFreed(s, j);
    }
  }

  lemma DeleteSeparates(s: State, key: string, i: int)
    requires Good(s) && DistinctTokens(s) && key in s.store
    requires 0 <= i < |s.grants| && s.grants[i].key == key && Latest(s, i)
    ensures Separated(s.(store := s.store - {key}, freed := s.freed[s.grants[i].token := s.now]))
  {
    var s' := s.(store := s.store - {key}, freed := s.freed[s.grants[i].token := s.now]);
    forall j, k | 0 <= j < k < |s'.grants| ensures Apart(s', j, k) {
      assert Apart(s, j, k);
      if s.grants[j].token == s.grants[i].token {
        assert j == i;
      }
    }
  }

  lemma ReleaseGood(s: State, key: string, token: string)
    requires Good(s) && DistinctTokens(s)
    ensures Good(CompareAndDelete(s, key, token))
  {
    if Live(s, key) && s.store[key].token == token {
      var i := Owner(s, key);
      DeleteKeeps(s, key, i);
      DeleteSeparates(s, key, i);
    }
  }

  lemma TickGood(s: State, seconds: nat)
    requires Good(s)
    ensures Good(s.(now := s.now + seconds))
  {
    var s' := s.(now := s.now + seconds);
    assert forall i | 0 <= i < |s.grants| :: Latest(s', i) <==> Latest(s, i);
    forall k | k in s'.store ensures StoresLatest(s', k) {
      assert StoresLatest(s, k);
      var j :| 0 <= j < |s.grants| && s.grants[j].key == k && Latest(s, j) && Stored(s, s.grants[j]);
      assert Latest(s', j) && Stored(s', s'.grants[j]);
    }
    forall i | 0 <= i < |s'.grants| && Latest(s', i) ensures KeptOrFreed(s', i) {
      assert KeptOrFreed(s, i);
    }
    forall i, j | 0 <= i < j < |s'.grants| ensures Apart(s', i, j) {
      assert Apart(s, i, j);
    }
  }

  lemma StepGood(s: State, a: Action)
    requires Good(s) && DistinctTokens(s) && Fresh(s, a)
    ensures Good(Step(s, a)) && DistinctTokens(Step(s, a))
  {
    match a
    case TryAcquire(key, ttl, token, net) => SetNxGood(s, key, token, ttl);
    case Release(key, token, net) => ReleaseGood(s, key, token);
    case Tick(seconds) => TickGood(s, seconds);
  }

  lemma {:induction false} RunGood(s: State, actions: seq<Action>)
    requires Good(s) && DistinctTokens(s) && AllFresh(s, actions)
    ensures Good(Run(s, actions)) && DistinctTokens(Run(s, actions))
    decreases |actions|
  {
    if actions != [] {
      StepGood(s, actions[0]);
      RunGood(Step(s, actions[0]), actions[1..]);
    }
  }

  ghost predicate Inside(g: Grant, time: int) {
    g.at <= time < g.until
  }

  /** Mutual exclusion: in every reachable state, two grants of one key are never both inside
      their TTL at any time, unless the earlier one had been released before the later began. */
  lemma MutualExclusion(actions: seq<Action>, i: int, j: int, time: int)
    requires AllFresh(Initial, actions)
    requires 0 <= i < j < |Run(Initial, actions).grants|
    requires var g := Run(Initial, actions).grants; g[i].key == g[j].key && Inside(g[i], time) && Inside(g[j], time)
    ensures var e := Run(Initial, actions); FreedBy(e, e.grants[i], e.grants[j].at)
  {
    RunGood(Initial, actions);
    assert Apart(Run(Initial, actions), i, j);
  }

  /** The owner of a grant that a later grant of the key has followed cannot delete the later
      owner's lock: its release changes nothing. */
  lemma StaleReleaseIsHarmless(s: State, i: int, j: int, net: Net)
    requires Good(s) && DistinctTokens(s)
    requires 0 <= i < j < |s.grants| && s.grants[i].key == s.grants[j].key
    ensures Step(s, Release(s.grants[i].key, s.grants[i].token, net)) == s
  {
    var key := s.grants[i].key;
    if key in s.store {
      var k := Owner(s, key);
      assert k != i && s.grants[k].token != s.grants[i].token;
    }
  }

  // ---------------------------------------------------------------------------------------
  // What holders and losers of a reply can rely on

  lemma {:induction false} GrantsOnlyGrow(s: State, actions: seq<Action>)
    ensures s.grants <= Run(s, actions).grants && s.now <= Run(s, actions).now
    decreases |actions|
  {
    if actions != [] {
      GrantsOnlyGrow(Step(s, actions[0]), actions[1..]);
    }
  }

  lemma LastGrantStored(s: State, a: Action)
    requires Good(s) && DistinctTokens(s) && Fresh(s, a)
    requires a.TryAcquire? && !a.net.Undelivered? && !Live(s, a.key)
    ensures var e, n := Step(s, a), |s.grants|;
            && Good(e) && DistinctTokens(e) && |e.grants| == n + 1
            && e.grants[n] == Grant(a.key, a.token, s.now, s.now + a.ttl) && Stored(e, e.grants[n])
  {
    StepGood(s, a);
  }

  /** The live entry of `key` in `e` belongs to a grant behind the first `n`. */
  ghost predicate LaterOwner(e: State, key: string, n: nat) {
    exists i :: n <= i < |e.grants| && e.grants[i].key == key && Latest(e, i) && Stored(e, e.grants[i])
  }

  /** An applied acquisition frees its key by the end of its TTL, also when its reply was lost and
      nobody knows of it: over all interleavings, whoever holds the key from then on was granted
      it later, under another token; and if nobody was, the next attempt is told that it acquired
      the lock. */
  lemma LostReplyFreesByTtl(s: State, a: Action, actions: seq<Action>, next: Action)
    requires Good(s) && DistinctTokens(s) && Fresh(s, a)
    requires a.TryAcquire? && !a.net.Undelivered? && !Live(s, a.key)
    requires AllFresh(Step(s, a), actions)
    requires s.now + a.ttl <= Run(Step(s, a), actions).now
    requires next.TryAcquire? && next.key == a.key && next.net == Answered
    ensures a.net.ReplyLost? ==> Report(s, a) == Unavailable
    ensures var e := Run(Step(s, a), actions);
            && (Live(e, a.key) ==> LaterOwner(e, a.key, |s.grants| + 1) && e.store[a.key].token != a.token)
            && (!LaterOwner(e, a.key, |s.grants| + 1) ==> Report(e, next) == Acquired(next.key, next.token))
  {
    var s', n := Step(s, a), |s.grants|;
    LastGrantStored(s, a);
    RunGood(s', actions);
    GrantsOnlyGrow(s', actions);
    var e := Run(s', actions);
    assert e.grants[n] == s'.grants[n] && e.grants[n].key == a.key;
    if Live(e, a.key) {
      var i := Owner(e, a.key);
      assert n < i;
      assert e.grants[i].token != e.grants[n].token;
    }
  }

  lemma {:induction false} EntryStays(s: State, actions: seq<Action>, key: string, entry: Entry)
    requires key in s.store && s.store[key] == entry && Run(s, actions).now < entry.expiresAt
    requires forall net: Net :: Release(key, entry.token, net) !in actions
    ensures var e := Run(s, actions); key in e.store && e.store[key] == entry
    decreases |actions|
  {
    if actions != [] {
      GrantsOnlyGrow(s, actions);
      assert actions[0] in actions;
      forall net ensures Release(key, entry.token, net) !in actions[1..] {
        assert Release(key, entry.token, net) !in actions;
      }
      EntryStays(Step(s, actions[0]), actions[1..], key, entry);
    }
  }

  /** Whoever is told that it acquired the lock holds it alone: over all interleavings, until its
      TTL runs out or a release under its own token is sent, the key keeps its token and every
      attempt by others is told that the lock is held, if it is told anything. */
  lemma AcquiredExcludesOthers(s: State, a: Action, actions: seq<Action>, next: Action)
    requires a.TryAcquire? && Report(s, a).Acquired?
    requires forall net: Net :: Release(a.key, a.token, net) !in actions
    requires next.TryAcquire? && next.key == a.key
    requires Run(Step(s, a), actions).now < s.now + a.ttl
    ensures var e := Run(Step(s, a), actions);
            && Live(e, a.key) && e.store[a.key].token == a.token
            && Report(e, next) == if next.net.Answered? then Held else Unavailable
  {
    EntryStays(Step(s, a), actions, a.key, Entry(a.token, s.now + a.ttl));
  }

  // ---------------------------------------------------------------------------------------
  // What a release does

  /** The owner's release frees the key at once: the next attempt is told that it acquired it. */
  lemma ReleaseFrees(s: State, key: string, token: string, net: Net, next: Action)
    requires key in s.store && s.store[key].token == token && !net.Undelivered?
    requires next.TryAcquire? && next.key == key && next.net == Answered
    ensures !Live(Step(s, Release(key, token, net)), key)
    ensures Report(Step(s, Release(key, token, net)), next) == Acquired(key, next.token)
  {
  }

  /** A release under another token than the stored one, and one that does not arrive, change
      nothing. */
  lemma OtherTokenIsHarmless(s: State, key: string, token: string, net: Net)
    requires net.Undelivered? || key !in s.store || s.store[key].token != token
    ensures Step(s, Release(key, token, net)) == s
  {
  }

  /** A request that does not arrive and an attempt on a held key change nothing. */
  lemma NoEffect(s: State, a: Action)
    requires !a.Tick? && (a.net.Undelivered? || (a.TryAcquire? && Live(s, a.key)))
    ensures Step(s, a) == s
  {
  }

  /** No request touches another key than its own. */
  lemma OtherKeysStay(s: State, a: Action, key: string)
    requires a.Tick? || a.key != key
    ensures var e := Step(s, a);
            (key in e.store <==> key in s.store) && (key in s.store ==> e.store[key] == s.store[key])
  {
  }

  /** Only the passing of time advances the clock, and by as much. */
  lemma ClockAdvances(s: State, a: Action)
    ensures Step(s, a).now == s.now + if a.Tick? then a.seconds else 0
  {
  }

  /** The first attempt on a key nobody has asked for acquires it. */
  lemma UnusedKeyIsFree(s: State, a: Action)
    requires a.TryAcquire? && a.key !in s.store && a.net == Answered
    ensures Report(s, a) == Acquired(a.key, a.token)
  {
  }

  /** After an owner's release that arrived, over all interleavings: whoever holds the key was
      granted it later, under another token; and if nobody was, the next attempt acquires it. */
  lemma ReleasedUntilNextGrant(s: State, key: string, token: string, net: Net, actions: seq<Action>, next: Action)
    requires Good(s) && DistinctTokens(s) && Live(s, key) && s.store[key].token == token && !net.Undelivered?
    requires AllFresh(Step(s, Release(key, token, net)), actions)
    requires next.TryAcquire? && next.key == key && next.net == Answered
    ensures var e := Run(Step(s, Release(key, token, net)), actions);
            && (Live(e, key) ==> LaterOwner(e, key, |s.grants|) && e.store[key].token != token)
            && (!LaterOwner(e, key, |s.grants|) ==> Report(e, next) == Acquired(key, next.token))
  {
    var s', n := Step(s, Release(key, token, net)), |s.grants|;
    var k := Owner(s, key);
    StepGood(s, Release(key, token, net));
    RunGood(s', actions);
    GrantsOnlyGrow(s', actions);
    NotStoredAgain(s', actions, key, n);
    var e := Run(s', actions);
    assert e.grants[k] == s.grants[k] && s.grants[k].token == token;
    if Live(e, key) {
      var i := Owner(e, key);
      assert n <= i;
      assert e.grants[i].token != e.grants[k].token;
    }
  }

  /** A key that is not stored is stored again only by a later grant. */
  lemma {:induction false} NotStoredAgain(s: State, actions: seq<Action>, key: string, n: nat)
    requires n <= |s.grants| && (key in s.store ==> StoredLater(s, key, n))
    ensures var e := Run(s, actions); n <= |e.grants| && (key in e.store ==> StoredLater(e, key, n))
    decreases |actions|
  {
    if actions != [] {
      var s' := Step(s, actions[0]);
      if key in s'.store && key in s.store && s'.store[key] == s.store[key] {
        var i :| n <= i < |s.grants| && s.grants[i].key == key && Stored(s, s.grants[i]);
        assert s'.grants[i] == s.grants[i];
      } else if key in s'.store {
        assert s'.grants[|s.grants|].key == key && Stored(s', s'.grants[|s.grants|]);
      }
      NotStoredAgain(s', actions[1..], key, n);
    }
  }

  ghost predicate StoredLater(s: State, key: string, n: nat) {
    exists i :: n <= i < |s.grants| && s.grants[i].key == key && Stored(s, s.grants[i])
  }
}

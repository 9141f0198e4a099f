/** The distributed lock over all interleavings of acquisitions, releases, the clock and lost
    messages. */
module LockSpec {
  import opened Connection

  datatype Entry = Entry(token: string, expiresAt: int)

  /** An applied SET. */
  datatype Grant = Grant(key: string, token: string, at: int, until: int)

  /** The server's keys and clock (seconds), and what has happened to it: the applied SETs in
      order, and the tokens deleted by a release with the time of the deletion. */
  datatype State = State(
    store: map<string, Entry>,
    now: int,
    grants: seq<Grant>,
    freed: map<string, int>)

  datatype Action =
    | TryAcquire(key: string, ttl: int, token: string, net: Net)
    | Release(key: string, token: string, net: Net)
    | Tick(seconds: nat)

  datatype Acquisition = Acquired(key: string, token: string) | Held | Unavailable

  const Initial := State(map[], 0, [], map[])

  predicate Live(s: State, key: string) {
    key in s.store && s.now < s.store[key].expiresAt
  }

  /** `SET key token EX ttl NX`. */
  function SetNx(s: State, key: string, token: string, ttl: int): State {
    if Live(s, key) then s
    else s.(store := s.store[key := Entry(token, s.now + ttl)],
            grants := s.grants + [Grant(key, token, s.now, s.now + ttl)])
  }

  /** The compare-and-delete script. */
  function CompareAndDelete(s: State, key: string, token: string): State {
    if Live(s, key) && s.store[key].token == token
    then s.(store := s.store - {key}, freed := s.freed[token := s.now])
    else s
  }

  function Step(s: State, a: Action): State {
    match a
    case TryAcquire(key, ttl, token, net) => if net.Undelivered? then s else SetNx(s, key, token, ttl)
    case Release(key, token, net) => if net.Undelivered? then s else CompareAndDelete(s, key, token)
    case Tick(seconds) => s.(now := s.now + seconds)
  }

  /** What `tryAcquireLock` tells its caller. */
  function Report(s: State, a: Action): Acquisition
    requires a.TryAcquire?
  {
    if !a.net.Answered? then Unavailable
    else if Live(s, a.key) then Held
    else Acquired(a.key, a.token)
  }

  function Run(s: State, actions: seq<Action>): State
    decreases |actions|
  {
    if actions == [] then s else Run(Step(s, actions[0]), actions[1..])
  }

  /** Tokens are `randomUUID()`s: none is used for two acquisitions. */
  ghost predicate Fresh(s: State, a: Action) {
    a.TryAcquire? ==> 1 <= a.ttl && forall i | 0 <= i < |s.grants| :: s.grants[i].token != a.token
  }

  ghost predicate AllFresh(s: State, actions: seq<Action>)
    decreases |actions|
  {
    actions == [] || (Fresh(s, actions[0]) && AllFresh(Step(s, actions[0]), actions[1..]))
  }
}

/** Replay protection in its in-memory mode as a state machine over its operations, the clock
    and the event loop's timers, next to the Redis semantics it stands in for. */
module ReplaySpec {

  datatype Timer = Timer(key: string, due: int)

  /** `used` and `timers` are the object's fields; `pending` are the timers the event loop still
      holds, by id; times are in milliseconds. */
  datatype State = State(
    used: set<string>,
    timers: map<string, int>,
    pending: map<int, Timer>,
    nextId: int,
    now: int)

  /** Seconds a timer can be armed for without exceeding the platform's 32-bit delay. */
  type Ttl = t: int | 1 <= t <= 2147483 witness 1

  datatype Action =
    | Claim(key: string, ttl: Ttl)
    | MarkUsed(key: string, ttl: Ttl)
    | Release(key: string)
    | Fire(id: int)
    | Tick(ms: nat)

  const Initial := State({}, map[], map[], 0, 0)

  function Mark(s: State, key: string, ttl: Ttl): State {
    var kept := if key in s.timers then s.pending - {s.timers[key]} else s.pending;
    State(s.used + {key}, s.timers[key := s.nextId],
          kept[s.nextId := Timer(key, s.now + 1000 * ttl)], s.nextId + 1, s.now)
  }

  function Free(s: State, key: string): State {
    s.(used := s.used - {key},
       timers := s.timers - {key},
       pending := if key in s.timers then s.pending - {s.timers[key]} else s.pending)
  }

  /** The event loop may run a timer from its due time on, and never before. */
  predicate CanFire(s: State, id: int) {
    id in s.pending && s.pending[id].due <= s.now
  }

  /** The callback: it frees the key it was armed for. */
  function Fired(s: State, id: int): State
    requires id in s.pending
  {
    var key := s.pending[id].key;
    s.(used := s.used - {key}, timers := s.timers - {key}, pending := s.pending - {id})
  }

  function Wins(s: State, a: Action): bool {
    a.Claim? && a.key !in s.used
  }

  function Step(s: State, a: Action): State {
    match a
    case Claim(key, ttl) => if key in s.used then s else Mark(s, key, ttl)
    case MarkUsed(key, ttl) => Mark(s, key, ttl)
    case Release(key) => Free(s, key)
    case Fire(id) => if CanFire(s, id) then Fired(s, id) else s
    case Tick(ms) => s.(now := s.now + ms)
  }

  function Run(s: State, actions: seq<Action>): State
    decreases |actions|
  {
    if actions == [] then s else Run(Step(s, actions[0]), actions[1..])
  }

  // ---------------------------------------------------------------------------------------
  // Redis: keys with an expiry time

  datatype Store = Store(expiry: map<string, int>, now: int)

  predicate Holds(r: Store, key: string) {
    key in r.expiry && r.now < r.expiry[key]
  }

  /** One operation on the store; `granted` says whether a claim is carried out. */
  function StoreStep(r: Store, a: Action, granted: bool): Store {
    match a
    case Claim(key, ttl) => if granted then r.(expiry := r.expiry[key := r.now + 1000 * ttl]) else r
    case MarkUsed(key, ttl) => r.(expiry := r.expiry[key := r.now + 1000 * ttl])
    case Release(key) => r.(expiry := r.expiry - {key})
    case Fire(_) => r
    case Tick(ms) => r.(now := r.now + ms)
  }

  /** SET NX: a claim is granted exactly when the key is not held. */
  predicate StoreWins(r: Store, a: Action) {
    a.Claim? && !Holds(r, a.key)
  }

  function StoreRun(r: Store, actions: seq<Action>): Store
    decreases |actions|
  {
    if actions == [] then r
    else StoreRun(StoreStep(r, actions[0], StoreWins(r, actions[0])), actions[1..])
  }

  /** The store after the operations the in-memory object carried out. */
  function Shadow(s: State, r: Store, actions: seq<Action>): Store
    decreases |actions|
  {
    if actions == [] then r
    else Shadow(Step(s, actions[0]), StoreStep(r, actions[0], Wins(s, actions[0])), actions[1..])
  }
}

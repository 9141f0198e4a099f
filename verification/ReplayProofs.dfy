/** Claims are exclusive in time, and the in-memory mode against SET NX EX. */
module ReplayProofs {
  import opened ReplaySpec

  /** The used hashes are exactly those with one live timer, and every live timer belongs to the
      hash it will free: a timer that was superseded is not live any more. */
  ghost predicate Good(s: State) {
    && s.used == s.timers.Keys
    && (forall k | k in s.timers :: s.timers[k] in s.pending && s.pending[s.timers[k]].key == k)
    && (forall id | id in s.pending ::
          id < s.nextId && s.pending[id].key in s.timers && s.timers[s.pending[id].key] == id)
  }

  lemma StepGood(s: State, a: Action)
    requires Good(s)
    ensures Good(Step(s, a))
  {
  }

  lemma {:induction false} RunGood(s: State, actions: seq<Action>)
    requires Good(s)
    ensures Good(Run(s, actions))
    decreases |actions|
  {
    if actions != [] {
      StepGood(s, actions[0]);
      RunGood(Step(s, actions[0]), actions[1..]);
    }
  }

  /** The time at which a used hash becomes free. */
  function Due(s: State, key: string): int {
    if key in s.timers && s.timers[key] in s.pending then s.pending[s.timers[key]].due else s.now
  }

  /** A hash leaves the set only by its own release, or by a timer at or after the time its
      latest claim or mark asked for. */
  lemma OnlyReleaseOrExpiryFrees(s: State, a: Action, key: string)
    requires Good(s) && key in s.used && key !in Step(s, a).used
    ensures a == Release(key) || (a.Fire? && a.id == s.timers[key] && Due(s, key) <= s.now)
  {
  }

  /** A released hash is free at once, with no timer left: the next claim of it wins. */
  lemma ReleaseFrees(s: State, key: string, ttl: Ttl)
    requires Good(s)
    ensures var e := Step(s, Release(key));
            && e.used == s.used - {key} && (forall id | id in e.pending :: e.pending[id].key != key)
            && Wins(e, Claim(key, ttl))
  {
  }

  /** A claim of a hash that is not used wins; it, and a mark in any case, make the hash used for
      its TTL, so that no claim wins until then. */
  lemma ClaimAndMarkUse(s: State, a: Action, again: Ttl)
    requires Good(s) && ((a.Claim? && a.key !in s.used) || a.MarkUsed?)
    ensures a.Claim? ==> Wins(s, a)
    ensures var e := Step(s, a);
            && e.used == s.used + {a.key} && Due(e, a.key) == s.now + 1000 * a.ttl
            && !Wins(e, Claim(a.key, again))
  {
  }

  /** A due timer that runs frees its hash. */
  lemma FireFrees(s: State, id: int)
    requires Good(s) && CanFire(s, id)
    ensures Step(s, Fire(id)).used == s.used - {s.pending[id].key}
    ensures id !in Step(s, Fire(id)).pending
  {
  }

  /** Operations on other hashes, and the clock, leave a hash and its expiry alone. */
  lemma OtherHashesStay(s: State, a: Action, key: string)
    requires Good(s)
    requires a.Tick? || (a.Fire? && (CanFire(s, a.id) ==> s.pending[a.id].key != key)) || (!a.Fire? && a.key != key)
    ensures key in Step(s, a).used <==> key in s.used
    ensures key in s.used ==> Due(Step(s, a), key) == Due(s, key)
  {
  }

  lemma ClockAdvances(s: State, a: Action)
    ensures Step(s, a).now == s.now + if a.Tick? then a.ms else 0
  {
  }

  /** The deadline of `key` after an operation: a mark or a claim that wins sets a new one. */
  function NextDeadline(s: State, a: Action, key: string, until: int): int {
    if Wins(s, a) || a.MarkUsed? then if a.key == key then s.now + 1000 * a.ttl else until else until
  }

  /** The deadline after a run: the one set by the latest mark or winning claim. */
  function Deadline(s: State, actions: seq<Action>, key: string, until: int): int
    decreases |actions|
  {
    if actions == [] then until
    else Deadline(Step(s, actions[0]), actions[1..], key, NextDeadline(s, actions[0], key, until))
  }

  /** The clock stays below the current deadline all along. */
  predicate BelowDeadline(s: State, actions: seq<Action>, key: string, until: int)
    decreases |actions|
  {
    && s.now < until
    && (actions != [] ==>
          BelowDeadline(Step(s, actions[0]), actions[1..], key, NextDeadline(s, actions[0], key, until)))
  }

  predicate NoClaimWins(s: State, actions: seq<Action>, key: string)
    decreases |actions|
  {
    actions == []
    || (!(Wins(s, actions[0]) && actions[0].key == key) && NoClaimWins(Step(s, actions[0]), actions[1..], key))
  }

  /** The hash is used until `until`, or that moment has come. */
  predicate UsedUntil(s: State, key: string, until: int) {
    (key in s.used && Due(s, key) == until) || until <= s.now
  }

  lemma StepKeepsDeadline(s: State, a: Action, key: string, until: int)
    requires Good(s) && UsedUntil(s, key, until) && a != Release(key)
    ensures UsedUntil(Step(s, a), key, NextDeadline(s, a, key, until))
  {
    if key in s.used && key !in Step(s, a).used {
      OnlyReleaseOrExpiryFrees(s, a, key);
    }
  }

  lemma {:induction false} StaysUsed(s: State, actions: seq<Action>, key: string, until: int)
    requires Good(s) && UsedUntil(s, key, until) && Release(key) !in actions
    ensures UsedUntil(Run(s, actions), key, Deadline(s, actions, key, until))
    ensures BelowDeadline(s, actions, key, until) ==> NoClaimWins(s, actions, key)
    decreases |actions|
  {
    if actions != [] {
      assert actions[0] in actions && Release(key) !in actions[1..];
      StepGood(s, actions[0]);
      StepKeepsDeadline(s, actions[0], key, until);
      StaysUsed(Step(s, actions[0]), actions[1..], key, NextDeadline(s, actions[0], key, until));
    }
  }

  /** After a claim has won, and for any other operations and timer firings short of its release:
      before the deadline the latest claim or mark has set, the hash is used and stays so until
      then; and while the clock keeps below that deadline no claim of the hash wins. */
  lemma ClaimsAreExclusive(s: State, first: Action, actions: seq<Action>)
    requires Good(s) && Wins(s, first) && Release(first.key) !in actions
    ensures var s', until := Step(s, first), s.now + 1000 * first.ttl;
            var e, deadline := Run(s', actions), Deadline(s', actions, first.key, until);
            && (e.now < deadline ==> first.key in e.used && Due(e, first.key) == deadline)
            && (BelowDeadline(s', actions, first.key, until) ==> NoClaimWins(s', actions, first.key))
  {
    StepGood(s, first);
    StaysUsed(Step(s, first), actions, first.key, s.now + 1000 * first.ttl);
  }

  // ---------------------------------------------------------------------------------------
  // Against Redis

  /** The object has every key the store holds, with the same expiry; a key it has beyond that
      is one whose timer is overdue. */
  ghost predicate Covers(s: State, r: Store) {
    && r.now == s.now
    && (forall k | k in s.used :: k in r.expiry && r.expiry[k] == Due(s, k))
    && (forall k | Holds(r, k) :: k in s.used)
  }

  lemma StepCovers(s: State, r: Store, a: Action)
    requires Good(s) && Covers(s, r)
    ensures Covers(Step(s, a), StoreStep(r, a, Wins(s, a)))
    ensures Wins(s, a) ==> StoreWins(r, a)
  {
    StepGood(s, a);
  }

  /** The object and the store both start out empty. */
  lemma InitiallyGood()
    ensures Good(Initial) && Covers(Initial, Store(map[], 0))
  {
  }

  /** Over every run the object covers the store that carried out the same operations, so each
      claim it lets win is one that store would have granted too: late timers only refuse more. */
  lemma {:induction false} NeverMorePermissive(s: State, r: Store, actions: seq<Action>, next: Action)
    requires Good(s) && Covers(s, r)
    ensures Good(Run(s, actions)) && Covers(Run(s, actions), Shadow(s, r, actions))
    ensures Wins(Run(s, actions), next) ==> StoreWins(Shadow(s, r, actions), next)
    decreases |actions|
  {
    if actions == [] {
      StepCovers(s, r, next);
    } else {
      StepGood(s, actions[0]);
      StepCovers(s, r, actions[0]);
      NeverMorePermissive(Step(s, actions[0]), StoreStep(r, actions[0], Wins(s, actions[0])), actions[1..], next);
    }
  }

  /** The two answers to a claim differ exactly when the hash's timer is overdue. */
  lemma AnswersDifferIffOverdue(s: State, r: Store, a: Action)
    requires Good(s) && Covers(s, r) && a.Claim?
    ensures Wins(s, a) != StoreWins(r, a) <==> a.key in s.used && Due(s, a.key) <= s.now
  {
  }

  /** Each claim of the run gets the same answer from the object and from a Redis left to itself. */
  predicate AnswersAgree(s: State, r: Store, actions: seq<Action>)
    decreases |actions|
  {
    actions == []
    || (&& Wins(s, actions[0]) == StoreWins(r, actions[0])
        && AnswersAgree(Step(s, actions[0]), StoreStep(r, actions[0], StoreWins(r, actions[0])), actions[1..]))
  }

  /** A claim that finds the timer of its own hash overdue. */
  predicate ClaimsOverdue(s: State, a: Action) {
    a.Claim? && a.key in s.used && Due(s, a.key) <= s.now
  }

  predicate NoClaimOverdue(s: State, actions: seq<Action>)
    decreases |actions|
  {
    actions == [] || (!ClaimsOverdue(s, actions[0]) && NoClaimOverdue(Step(s, actions[0]), actions[1..]))
  }

  /** Over a run the object answers as a Redis left to itself exactly when no claim of the run
      finds its own hash's timer overdue; and the two then stay in step. */
  lemma {:induction false} AgreesWithRedisIff(s: State, r: Store, actions: seq<Action>)
    requires Good(s) && Covers(s, r)
    ensures AnswersAgree(s, r, actions) <==> NoClaimOverdue(s, actions)
    ensures NoClaimOverdue(s, actions) ==> Good(Run(s, actions)) && Covers(Run(s, actions), StoreRun(r, actions))
    decreases |actions|
  {
    if actions != [] {
      StepGood(s, actions[0]);
      StepCovers(s, r, actions[0]);
      if actions[0].Claim? {
        AnswersDifferIffOverdue(s, r, actions[0]);
      }
      if !ClaimsOverdue(s, actions[0]) {
        assert Wins(s, actions[0]) == StoreWins(r, actions[0]);
        AgreesWithRedisIff(Step(s, actions[0]), StoreStep(r, actions[0], Wins(s, actions[0])), actions[1..]);
      }
    }
  }

  ghost predicate OnTime(s: State) {
    forall id | id in s.pending :: s.now < s.pending[id].due
  }

  /** Every claim finds no timer overdue. */
  ghost predicate TimersOnTime(s: State, actions: seq<Action>)
    decreases |actions|
  {
    actions == [] || ((actions[0].Claim? ==> OnTime(s)) && TimersOnTime(Step(s, actions[0]), actions[1..]))
  }

  lemma OnTimeIsNotOverdue(s: State, key: string)
    requires Good(s) && OnTime(s) && key in s.used
    ensures s.now < Due(s, key)
  {
    assert key in s.timers;
    var id := s.timers[key];
    assert id in s.pending;
    assert s.now < s.pending[id].due;
  }

  lemma {:induction false} TimersOnTimeSuffice(s: State, actions: seq<Action>)
    requires Good(s) && TimersOnTime(s, actions)
    ensures NoClaimOverdue(s, actions)
    decreases |actions|
  {
    if actions != [] {
      if ClaimsOverdue(s, actions[0]) {
        OnTimeIsNotOverdue(s, actions[0].key);
      }
      StepGood(s, actions[0]);
      TimersOnTimeSuffice(Step(s, actions[0]), actions[1..]);
    }
  }

  /** With timers on time the two agree over every run, and between due timers the used hashes
      are exactly the held keys. */
  lemma AgreesWithRedisOnTime(s: State, r: Store, actions: seq<Action>)
    requires Good(s) && Covers(s, r) && TimersOnTime(s, actions)
    ensures AnswersAgree(s, r, actions)
    ensures var e, q := Run(s, actions), StoreRun(r, actions);
            && Good(e) && Covers(e, q)
            && (OnTime(e) ==> forall k :: k in e.used <==> Holds(q, k))
  {
    TimersOnTimeSuffice(s, actions);
    AgreesWithRedisIff(s, r, actions);
    var e, q := Run(s, actions), StoreRun(r, actions);
    if OnTime(e) {
      forall k ensures k in e.used <==> Holds(q, k) {
        if k in e.used {
          OnTimeIsNotOverdue(e, k);
        }
      }
    }
  }

  // ---------------------------------------------------------------------------------------
  // Redis mode

  /** In Redis mode too a release frees at once, and other keys and the clock are left alone. */
  lemma StoreReleaseFrees(r: Store, key: string, ttl: Ttl)
    ensures var e := StoreStep(r, Release(key), false);
            && !Holds(e, key) && StoreWins(e, Claim(key, ttl)) && e.now == r.now
            && forall k | k != key :: Holds(e, k) <==> Holds(r, k)
  {
  }

  /** A granted claim and a mark hold the key for the TTL, and no other key changes. */
  lemma StoreClaimHolds(r: Store, a: Action)
    requires (a.Claim? && StoreWins(r, a)) || a.MarkUsed?
    ensures var e := StoreStep(r, a, StoreWins(r, a));
            && Holds(e, a.key) && e.expiry[a.key] == r.now + 1000 * a.ttl && e.now == r.now
            && forall k | k != a.key :: Holds(e, k) <==> Holds(r, k)
  {
  }

  /** A claim is granted exactly when the key is missing or has expired. */
  lemma StoreGrantsIff(r: Store, key: string, ttl: Ttl)
    ensures StoreWins(r, Claim(key, ttl)) <==> key !in r.expiry || r.expiry[key] <= r.now
  {
  }

  function NextExpiry(r: Store, a: Action, key: string, until: int): int {
    if StoreWins(r, a) || a.MarkUsed? then if a.key == key then r.now + 1000 * a.ttl else until else until
  }

  function StoreDeadline(r: Store, actions: seq<Action>, key: string, until: int): int
    decreases |actions|
  {
    if actions == [] then until
    else StoreDeadline(StoreStep(r, actions[0], StoreWins(r, actions[0])), actions[1..], key,
                       NextExpiry(r, actions[0], key, until))
  }

  predicate StoreBelowDeadline(r: Store, actions: seq<Action>, key: string, until: int)
    decreases |actions|
  {
    && r.now < until
    && (actions != [] ==>
          StoreBelowDeadline(StoreStep(r, actions[0], StoreWins(r, actions[0])), actions[1..], key,
                             NextExpiry(r, actions[0], key, until)))
  }

  predicate NoClaimGranted(r: Store, actions: seq<Action>, key: string)
    decreases |actions|
  {
    actions == []
    || (&& !(StoreWins(r, actions[0]) && actions[0].key == key)
        && NoClaimGranted(StoreStep(r, actions[0], StoreWins(r, actions[0])), actions[1..], key))
  }

  lemma {:induction false} StoreKeepsDeadline(r: Store, actions: seq<Action>, key: string)
    requires key in r.expiry && Release(key) !in actions
    ensures var e := StoreRun(r, actions);
            key in e.expiry && e.expiry[key] == StoreDeadline(r, actions, key, r.expiry[key])
    ensures StoreBelowDeadline(r, actions, key, r.expiry[key]) ==> NoClaimGranted(r, actions, key)
    decreases |actions|
  {
    if actions != [] {
      assert actions[0] in actions && Release(key) !in actions[1..];
      StoreKeepsDeadline(StoreStep(r, actions[0], StoreWins(r, actions[0])), actions[1..], key);
    }
  }

  /** In Redis mode, for all gateway instances that share the store: after a granted claim, and
      short of its release, the key is held exactly while the clock is below the deadline the
      latest claim or mark has set, and no claim of it is granted before. */
  lemma StoreClaimsAreExclusive(r: Store, first: Action, actions: seq<Action>)
    requires StoreWins(r, first) && Release(first.key) !in actions
    ensures var r', until := StoreStep(r, first, true), r.now + 1000 * first.ttl;
            var e := StoreRun(r', actions);
            && (Holds(e, first.key) <==> e.now < StoreDeadline(r', actions, first.key, until))
            && (StoreBelowDeadline(r', actions, first.key, until) ==> NoClaimGranted(r', actions, first.key))
  {
    StoreKeepsDeadline(StoreStep(r, first, true), actions, first.key);
  }

  /** What can follow an overdue claim: after a late timer made the object refuse a claim that
      Redis granted, the timer frees the hash while Redis still holds the key for that claim. */
  lemma LateTimerOvertakes(key: string)
    ensures var late := [Claim(key, 1), Tick(1000), Claim(key, 1), Fire(0)];
            && Wins(Run(Initial, late), Claim(key, 1))
            && !StoreWins(StoreRun(Store(map[], 0), late), Claim(key, 1))
  {
    var a0, a1, a2, a3 := Claim(key, 1), Tick(1000), Claim(key, 1), Fire(0);
    var late := [a0, a1, a2, a3];
    assert late[1..] == [a1, a2, a3] && [a1, a2, a3][1..] == [a2, a3];
    assert [a2, a3][1..] == [a3] && [a3][1..] == [];
    var s1 := Step(Initial, a0);
    var s2 := Step(s1, a1);
    var s4 := Step(s2, a3);
    assert s2.used == {key} && s2.pending == map[0 := Timer(key, 1000)];
    assert Step(s2, a2) == s2 && s4.used == {};
    calc {
      Run(Initial, late);
      Run(s1, [a1, a2, a3]);
      Run(s2, [a2, a3]);
      Run(s2, [a3]);
      Run(s4, []);
      s4;
    }
    var r0 := Store(map[], 0);
    var r1 := Store(map[key := 1000], 0);
    var r2 := Store(map[key := 1000], 1000);
    var r3 := Store(map[key := 2000], 1000);
    assert StoreStep(r2, a2, true) == r3;
    calc {
      StoreRun(r0, late);
      StoreRun(r1, [a1, a2, a3]);
      StoreRun(r2, [a2, a3]);
      StoreRun(r3, [a3]);
      StoreRun(r3, []);
      r3;
    }
  }
}

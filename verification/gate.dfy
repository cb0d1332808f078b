// How the two guarded callers use the limiter, one request at a time: the check
// first, and at most one failure after a check that found the address not
// blocked (agent/internal/auth/authenticator.go and agent/internal/server/pair.go).
module Gates {
  import opened Common
  import opened Throttle
  import R = ThrottleRefinement
  import Runs

  /** A step in which no address is failed that was not checked and found free. */
  ghost predicate AllGuardedNext(s: R.State, e: R.Event, u: R.State) {
    R.Next(s, e, u) && (e.Fail? ==> e.key in s.cleared)
  }

  lemma GuardedForEach(key: Key, states: seq<R.State>, events: seq<R.Event>)
    requires Runs.IsRun(R.INITIAL, AllGuardedNext, states, events)
    ensures Runs.IsRun(R.INITIAL, (s, e, u) => R.GuardedNext(key, s, e, u), states, events)
  {
    forall i | 0 <= i < |events| ensures R.GuardedNext(key, states[i], events[i], states[i + 1]) {
      assert AllGuardedNext(states[i], events[i], states[i + 1]);
    }
  }

  /** In such a run: at most 13 failures of an address in ten minutes, and no block over 8 minutes. */
  lemma GuardedCallersAreBounded(s: R.State, key: Key, from: Time)
    requires Runs.Reachable(R.INITIAL, AllGuardedNext, s)
    ensures R.FailuresIn(R.Of(s.kept, key), from) <= 13
    ensures Left(At(s.table, key), s.clock) <= 8 * MINUTE
  {
    var states, events :| Runs.IsRun(R.INITIAL, AllGuardedNext, states, events) && states[|events|] == s;
    GuardedForEach(key, states, events);
    assert Runs.Reachable(R.INITIAL, (s, e, u) => R.GuardedNext(key, s, e, u), s);
    R.GuardedCallerAtMostThirteen(key, s, from);
  }

  /** A failure after a check that found the address free is a step of such a run. */
  lemma FailureNoted(s: R.State, key: Key, now: Time, dropped: set<Key>) returns (u: R.State)
    requires Runs.Reachable(R.INITIAL, AllGuardedNext, s) && s.clock <= now && key in s.cleared && MayDrop(s.table, key, now, dropped)
    ensures Runs.Reachable(R.INITIAL, AllGuardedNext, u) && u.table == FailIn(s.table, key, now, dropped) && u.clock == now
    ensures key in u.table && u.table[key].failures != [] && u.table[key].failures[|u.table[key].failures| - 1] == now
    ensures R.Of(u.full, key) == R.Of(s.full, key) + [now]
  {
    R.FailureIsNewest(s.table, key, now, dropped);
    hide FailIn;
    hide MayDrop;
    u := R.State(
      FailIn(s.table, key, now, dropped), now, s.full[key := R.Of(s.full, key) + [now]],
      (s.kept - dropped)[key := R.Of(s.kept - dropped, key) + [now]], s.dropped + dropped, s.cleared - {key});
    Runs.StepReachable(R.INITIAL, AllGuardedNext, s, R.Fail(key, now, dropped), u);
  }

  /** The limiter with all that was ever asked of it. */
  class Gate {
    const limiter: Limiter
    ghost var s: R.State

    ghost predicate Valid()
      reads this, limiter, limiter.records
    {
      && limiter.Valid() && limiter.table == s.table
      && Runs.Reachable(R.INITIAL, AllGuardedNext, s)
    }

    /** No address has more than 13 failures in any ten minutes since it was last given up, nor a block of over 8 minutes. */
    ghost predicate Bounded()
      reads this
    {
      forall key: Key, from: Time ::
        R.FailuresIn(R.Of(s.kept, key), from) <= 13 && Left(At(s.table, key), s.clock) <= 8 * MINUTE
    }

    lemma ValidIsBounded()
      requires Valid()
      ensures Bounded()
    {
      forall key: Key, from: Time
        ensures R.FailuresIn(R.Of(s.kept, key), from) <= 13 && Left(At(s.table, key), s.clock) <= 8 * MINUTE
      {
        GuardedCallersAreBounded(s, key, from);
      }
    }

    constructor ()
      ensures Valid() && fresh(limiter) && fresh(limiter.records) && s == R.INITIAL
    {
      limiter := new Limiter();
      s := R.INITIAL;
      Runs.InitReachable(R.INITIAL, AllGuardedNext);
    }

    method Blocked(key: Key, now: Time) returns (left: nat, blocked: bool)
      requires Valid() && s.clock <= now
      modifies this
      ensures Valid() && limiter.records == old(limiter.records) && s.table == old(s.table) && s.clock == now
      ensures left == Left(At(s.table, key), now) && (blocked <==> left > 0)
      ensures !blocked ==> key in s.cleared
    {
      left, blocked := limiter.Blocked(key, now);
      ghost var u := s.(clock := now, cleared := if left == 0 then s.cleared[key := now] else s.cleared);
      Runs.StepReachable(R.INITIAL, AllGuardedNext, s, R.Check(key, now), u);
      s := u;
    }

    method Fail(key: Key, now: Time) returns (ghost dropped: set<Key>)
      requires Valid() && s.clock <= now && key in s.cleared
      modifies this, limiter, limiter.records
      ensures Valid() && fresh(limiter.records - old(limiter.records))
      ensures MayDrop(old(s.table), key, now, dropped) && s.table == FailIn(old(s.table), key, now, dropped)
      ensures key in s.table && s.table[key].failures != [] && s.table[key].failures[|s.table[key].failures| - 1] == now
      ensures s.clock == now && R.Of(s.full, key) == R.Of(old(s.full), key) + [now]
    {
      hide FailIn;
      hide MayDrop;
      dropped := limiter.Fail(key, now);
      s := FailureNoted(s, key, now, dropped);
    }
  }

  /** The value of Retry-After: seconds, rounded up. */
  function Seconds(left: nat): (n: nat)
    ensures n * SECOND >= left && (n > 0 ==> (n - 1) * SECOND < left)
  {
    (left + SECOND - 1) / SECOND
  }
}

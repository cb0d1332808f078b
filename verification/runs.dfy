// Runs of a transition system, and proof by invariant.
module Runs {

  ghost predicate IsRun<S, E>(init: S, next: (S, E, S) -> bool, states: seq<S>, events: seq<E>) {
    && |states| == |events| + 1
    && states[0] == init
    && forall i :: 0 <= i < |events| ==> next(states[i], events[i], states[i + 1])
  }

  ghost predicate Reachable<S(!new), E(!new)>(init: S, next: (S, E, S) -> bool, s: S) {
    exists states, events :: IsRun(init, next, states, events) && states[|events|] == s
  }

  lemma {:induction false} InvariantAt<S(!new), E(!new)>(
      init: S, next: (S, E, S) -> bool, inv: S -> bool, states: seq<S>, events: seq<E>, i: nat)
    requires inv(init)
    requires forall s, e, t :: inv(s) && next(s, e, t) ==> inv(t)
    requires IsRun(init, next, states, events) && i <= |events|
    ensures inv(states[i])
  {
    if i > 0 {
      InvariantAt(init, next, inv, states, events, i - 1);
      assert next(states[i - 1], events[i - 1], states[i]);
    }
  }

  lemma InvariantHolds<S(!new), E(!new)>(init: S, next: (S, E, S) -> bool, inv: S -> bool, s: S)
    requires inv(init)
    requires forall s, e, t :: inv(s) && next(s, e, t) ==> inv(t)
    requires Reachable(init, next, s)
    ensures inv(s)
  {
    var states, events :| IsRun(init, next, states, events) && states[|events|] == s;
    InvariantAt(init, next, inv, states, events, |events|);
  }

  lemma InitReachable<S(!new), E(!new)>(init: S, next: (S, E, S) -> bool)
    ensures Reachable(init, next, init)
  {
    var none: seq<E> := [];
    assert IsRun(init, next, [init], none) && [init][|none|] == init;
  }

  lemma StepReachable<S(!new), E(!new)>(init: S, next: (S, E, S) -> bool, s: S, e: E, t: S)
    requires Reachable(init, next, s) && next(s, e, t)
    ensures Reachable(init, next, t)
  {
    var states, events :| IsRun(init, next, states, events) && states[|events|] == s;
    assert IsRun(init, next, states + [t], events + [e]) && (states + [t])[|events + [e]|] == t;
  }
}

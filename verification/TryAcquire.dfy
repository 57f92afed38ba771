/** try_acquire is a load and a compare-and-exchange loop, yet takes effect at one instant. */
module TryAcquire {
  import opened SemaphoreProtocol

  /** What a thread inside the loop believes was true of the counter at the instant `seen`, a
      moment of this same call (which began at action `start`) since which the thread itself
      has not acted. */
  ghost predicate Observed(states: seq<State>, actions: seq<Action>, t: nat, k: nat, start: nat, seen: nat)
    requires |states| == |actions| + 1 && k <= |actions|
  {
    && start < seen <= k
    && t < |states[k].threads| && states[k].threads[t].Trying?
    && actions[start] == TryLoad(t)
    && (forall m :: start < m <= k ==> t < |states[m].threads| && states[m].threads[t].Trying?)
    && states[seen].count == states[k].threads[t].seen
    && (forall m :: seen <= m < k ==> actions[m].t != t)
  }

  /** How a thread comes to be in the loop: by loading, by a failed exchange, or by another's step. */
  lemma EnterLoop(policy: Policy, s: State, a: Action, t: nat)
    requires Enabled(s, a) && t < |s.threads| && Apply(policy, s, a).threads[t].Trying?
    ensures a == TryLoad(t) || s.threads[t].Trying?
    ensures a.t == t ==> Apply(policy, s, a).count == Apply(policy, s, a).threads[t].seen
    ensures a.t != t ==> Apply(policy, s, a).threads[t] == s.threads[t]
  {}

  /** A thread that was in the loop, and still is after another's step or its own failed exchange. */
  lemma ObserveNext(states: seq<State>, actions: seq<Action>, t: nat, k: nat, start: nat, seen: nat)
    requires |states| == |actions| + 1 && k < |actions| && Observed(states, actions, t, k, start, seen)
    requires t < |states[k + 1].threads| && states[k + 1].threads[t].Trying?
    requires actions[k].t == t ==> states[k + 1].count == states[k + 1].threads[t].seen
    requires actions[k].t != t ==> states[k + 1].threads[t] == states[k].threads[t]
    ensures Observed(states, actions, t, k + 1, start, if actions[k].t == t then k + 1 else seen)
  {}

  lemma {:induction false} Observe(policy: Policy, desired: int, n: nat, states: seq<State>, actions: seq<Action>,
                                   t: nat, k: nat) returns (start: nat, seen: nat)
    requires IsRun(policy, desired, n, states, actions) && k <= |actions|
    requires t < |states[k].threads| && states[k].threads[t].Trying?
    ensures Observed(states, actions, t, k, start, seen)
  {
    assert k > 0;
    var a := actions[k - 1];
    assert Stepped(policy, states, actions, k - 1);
    EnterLoop(policy, states[k - 1], a, t);
    if a == TryLoad(t) {
      start, seen := k - 1, k;
    } else {
      start, seen := Observe(policy, desired, n, states, actions, t, k - 1);
      ObserveNext(states, actions, t, k - 1, start, seen);
      if a.t == t {
        seen := k;
      }
    }
  }

  /** A counter that differs between two instants changed at some step between them. */
  lemma {:induction false} SomebodyChangedIt(states: seq<State>, i: nat, k: nat) returns (m: nat)
    requires i <= k < |states| && states[i].count != states[k].count
    ensures i <= m < k && states[m].count != states[m + 1].count
  {
    if states[k - 1].count != states[k].count {
      m := k - 1;
    } else {
      m := SomebodyChangedIt(states, i, k - 1);
    }
  }

  /** A refusal: at some instant inside this very call the counter was at or below zero, and
      the call changed nothing. */
  lemma RefusalLinearises(policy: Policy, desired: int, n: nat, states: seq<State>, actions: seq<Action>,
                          t: nat, k: nat) returns (start: nat, seen: nat)
    requires IsRun(policy, desired, n, states, actions) && Stepped(policy, states, actions, k)
    requires actions[k] == TryStep(t)
    requires states[k].threads[t].seen <= 0
    ensures start < seen <= k && actions[start] == TryLoad(t)
    ensures forall m :: start < m <= k ==> t < |states[m].threads| && states[m].threads[t].Trying?
    ensures states[seen].count <= 0
    ensures states[k + 1].threads[t].Idle? && states[k + 1].count == states[k].count
  {
    start, seen := Observe(policy, desired, n, states, actions, t, k);
  }

  /** A success takes exactly one permit: the last step of the call finds the counter positive and
      decrements it, and no earlier step of the call changed it. */
  lemma SuccessTakesOne(policy: Policy, desired: int, n: nat, states: seq<State>, actions: seq<Action>,
                        t: nat, k: nat) returns (start: nat)
    requires IsRun(policy, desired, n, states, actions) && Stepped(policy, states, actions, k)
    requires actions[k] == TryStep(t)
    requires states[k + 1].threads[t].Idle? && states[k].threads[t].seen > 0
    ensures states[k].count > 0 && states[k + 1].count == states[k].count - 1
    ensures start < k && actions[start] == TryLoad(t)
    ensures forall m :: start <= m < k && actions[m].t == t ==> states[m + 1].count == states[m].count
  {
    var seen;
    start, seen := Observe(policy, desired, n, states, actions, t, k);
    forall m | start <= m < k && actions[m].t == t ensures states[m + 1].count == states[m].count {
      assert Stepped(policy, states, actions, m);
      assert states[m + 1].threads[t].Trying?;
      UntilItLeaves(policy, states[m], actions[m], t);
    }
  }

  /** A step of the call after which it is still in the loop leaves the counter alone. */
  lemma UntilItLeaves(policy: Policy, s: State, a: Action, t: nat)
    requires Enabled(s, a) && a.t == t && Apply(policy, s, a).threads[t].Trying?
    ensures Apply(policy, s, a).count == s.count
  {}

  /** A failed exchange is another thread's doing: since the value was last seen, some other
      thread's step changed the counter. */
  lemma FailedExchangeIsCharged(policy: Policy, desired: int, n: nat, states: seq<State>, actions: seq<Action>,
                                t: nat, k: nat) returns (seen: nat, m: nat)
    requires IsRun(policy, desired, n, states, actions) && Stepped(policy, states, actions, k)
    requires actions[k] == TryStep(t)
    requires states[k].threads[t].seen > 0 && states[k + 1].threads[t].Trying?
    ensures seen <= m < k && states[seen].count == states[k].threads[t].seen
    ensures states[m].count != states[m + 1].count && actions[m].t != t
    ensures forall i :: seen <= i < k ==> actions[i].t != t
  {
    var start;
    start, seen := Observe(policy, desired, n, states, actions, t, k);
    m := SomebodyChangedIt(states, seen, k);
  }

  // ----- How often it can fail

  predicate Fails(s: State, a: Action, t: nat) {
    a == TryStep(t) && Enabled(s, a) && s.threads[t].seen > 0 && s.count != s.threads[t].seen
  }

  function Failures(states: seq<State>, actions: seq<Action>, t: nat, start: nat, k: nat): int
    requires start <= k <= |actions| < |states|
  {
    if k == start then 0
    else Failures(states, actions, t, start, k - 1) + if Fails(states[k - 1], actions[k - 1], t) then 1 else 0
  }

  /** Steps of other threads that changed the counter. */
  function Changes(states: seq<State>, actions: seq<Action>, t: nat, start: nat, k: nat): int
    requires start <= k <= |actions| < |states|
  {
    if k == start then 0
    else Changes(states, actions, t, start, k - 1)
         + if actions[k - 1].t != t && states[k - 1].count != states[k].count then 1 else 0
  }

  /** A value that is out of date will cost one more exchange. */
  function Stale(s: State, t: nat): int {
    if t < |s.threads| && s.threads[t].Trying? && s.threads[t].seen != s.count then 1 else 0
  }

  lemma StepCharges(policy: Policy, s: State, a: Action, t: nat)
    requires Enabled(s, a) && t < |s.threads| && s.threads[t].Trying?
    ensures var s' := Apply(policy, s, a);
            (if Fails(s, a, t) then 1 else 0) + Stale(s', t)
              <= Stale(s, t) + if a.t != t && s.count != s'.count then 1 else 0
  {}

  lemma LoadIsFresh(policy: Policy, s: State, t: nat)
    requires Enabled(s, TryLoad(t))
    ensures !Fails(s, TryLoad(t), t) && Stale(Apply(policy, s, TryLoad(t)), t) == 0
  {}

  /** Failures so far, and one more to come if the value is out of date, are covered by changes. */
  ghost predicate Charged(states: seq<State>, actions: seq<Action>, t: nat, start: nat, k: nat)
    requires start <= k <= |actions| < |states|
  {
    Failures(states, actions, t, start, k) + Stale(states[k], t) <= Changes(states, actions, t, start, k)
  }

  ghost predicate InLoop(s: State, t: nat) { t < |s.threads| && s.threads[t].Trying? }

  lemma ChargedNext(policy: Policy, states: seq<State>, actions: seq<Action>, t: nat, start: nat, k: nat)
    requires start <= k < |actions| < |states| && Charged(states, actions, t, start, k)
    requires Stepped(policy, states, actions, k) && InLoop(states[k], t)
    ensures Charged(states, actions, t, start, k + 1)
  {
    StepCharges(policy, states[k], actions[k], t);
  }

  lemma ChargedFirst(policy: Policy, states: seq<State>, actions: seq<Action>, t: nat, start: nat)
    requires start < |actions| < |states| && actions[start] == TryLoad(t) && Stepped(policy, states, actions, start)
    ensures Charged(states, actions, t, start, start + 1)
  {
    LoadIsFresh(policy, states[start], t);
    assert Failures(states, actions, t, start, start + 1) == Failures(states, actions, t, start, start);
  }

  lemma {:induction false} AlwaysCharged(policy: Policy, states: seq<State>, actions: seq<Action>,
                                         t: nat, start: nat, k: nat)
    requires start < k <= |actions| < |states| && actions[start] == TryLoad(t)
    requires forall m: nat :: m < k ==> Stepped(policy, states, actions, m)
    requires forall m: nat :: start < m < k ==> InLoop(states[m], t)
    ensures Charged(states, actions, t, start, k)
  {
    if k == start + 1 {
      ChargedFirst(policy, states, actions, t, start);
    } else {
      AlwaysCharged(policy, states, actions, t, start, k - 1);
      ChargedNext(policy, states, actions, t, start, k - 1);
    }
  }

  /** Distinct failures are charged to distinct changes: within a call, exchanges fail at most as
      often as other threads change the counter. */
  lemma FailuresAreCharged(policy: Policy, desired: int, n: nat, states: seq<State>, actions: seq<Action>,
                           t: nat, start: nat, k: nat)
    requires IsRun(policy, desired, n, states, actions) && start < k <= |actions| && actions[start] == TryLoad(t)
    requires forall m: nat :: start < m < k ==> InLoop(states[m], t)
    ensures Failures(states, actions, t, start, k) <= Changes(states, actions, t, start, k)
  {
    AlwaysCharged(policy, states, actions, t, start, k);
  }
}

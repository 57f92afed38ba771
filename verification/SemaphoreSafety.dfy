/** What holds of every execution of the semaphore: permits are never over-granted, nobody's
    completion is lost or posted twice, and exactly how many waiters are left behind. */
module SemaphoreSafety {
  import opened Collections
  import opened SemaphoreProtocol

  lemma FlightsNonNegative(s: State)
    ensures InFlight(s) >= 0 && Owed(s) >= 0 && PostsInFlight(s) >= 0
    ensures forall i :: 0 <= i < |s.threads| ==> EnqueuesDue(s.threads[i]) <= InFlight(s)
    ensures forall i :: 0 <= i < |s.threads| ==> DequeuesDue(s.threads[i]) <= Owed(s)
    ensures Quiescent(s) ==> InFlight(s) == Owed(s) == PostsInFlight(s) == 0
  {
    SumNonNegative(s.threads, EnqueuesDue);
    SumNonNegative(s.threads, DequeuesDue);
    SumNonNegative(s.threads, PostsDue);
  }

  /** As written, a release loses exactly its whole update when it leaves the counter at or
      below zero, and nothing otherwise; as documented it never loses any. */
  lemma LossMeaning(policy: Policy, before: int, update: nat)
    ensures Loss(Documented, before, update) == 0
    ensures Loss(AsWritten, before, update) == if before + update <= 0 then update else 0
    ensures Loss(policy, before, update) >= 0
  {}

  lemma StrandedNonNegative(policy: Policy, s: State)
    ensures Stranded(policy, s) >= 0
    ensures policy == Documented ==> Stranded(policy, s) == 0
  {
    forall i | 0 <= i < |s.log| && s.log[i].Released?
      ensures LossOf(policy)(s.log[i]) >= 0 && (policy == Documented ==> LossOf(policy)(s.log[i]) == 0)
    {
      LossMeaning(policy, s.log[i].before, s.log[i].update);
    }
    SumNonNegative(s.log, LossOf(policy));
  }

  /** Safety: in every reachable state, permits granted, free and lost add up to exactly the
      permits there ever were, so no more are granted than were created. */
  lemma NoOvergrant(policy: Policy, desired: nat, n: nat, states: seq<State>, actions: seq<Action>, k: nat)
    requires IsRun(policy, desired, n, states, actions) && k < |states|
    ensures var s := states[k];
            && Granted(policy, s) + Max(0, s.count) + Stranded(policy, s) == desired + ReleasedTotal(s)
            && Granted(policy, s) <= desired + ReleasedTotal(s)
            && TryTotal(s) + |s.posted| <= desired + ReleasedTotal(s)
  {
    RunInv(policy, desired, n, states, actions, k);
    StrandedNonNegative(policy, states[k]);
    FlightsNonNegative(states[k]);
  }

  /** Each submission of `f` is posted at most once and never forgotten. */
  lemma PostedAtMostOnce(policy: Policy, desired: int, n: nat, states: seq<State>, actions: seq<Action>,
                         k: nat, f: Completion)
    requires IsRun(policy, desired, n, states, actions) && k < |states|
    ensures var s := states[k];
            && 0 <= PostsOf(s, f) <= Submitted(s, f)
            && (Quiescent(s) ==> Submitted(s, f) == s.waiting[f] + PostsOf(s, f))
  {
    RunInv(policy, desired, n, states, actions, k);
    assert Conserved(states[k], f);
    SumNonNegative(states[k].threads, Holds(f));
    SumNonNegative(states[k].posted, Same(f));
  }

  /** The sanity assertion after the dequeue: it can fail only while some acquirer stands
      between its decrement and its enqueue. */
  lemma EmptyDequeueNeedsAcquirer(policy: Policy, desired: nat, n: nat, states: seq<State>, actions: seq<Action>,
                                  k: nat) returns (i: nat)
    requires IsRun(policy, desired, n, states, actions) && k < |actions|
    requires Early(actions[k])
    ensures i < |states[k].threads| && states[k].threads[i].Enqueueing? && i != actions[k].t
  {
    var s := states[k];
    RunInv(policy, desired, n, states, actions, k);
    StrandedNonNegative(policy, s);
    FlightsNonNegative(s);
    assert Stepped(policy, states, actions, k);
    assert DequeuesDue(s.threads[actions[k].t]) > 0;
    i := PositiveTerm(s.threads, EnqueuesDue);
  }

  /** Exactly when a dequeue that is due finds nothing, so that the sanity assertion fails: when those
      on their way into the queue are as many as the dequeues still owed and everybody who is to go
      on waiting. */
  lemma EmptyDequeueIff(policy: Policy, desired: nat, n: nat, states: seq<State>, actions: seq<Action>, k: nat)
    requires IsRun(policy, desired, n, states, actions) && k < |states|
    ensures var s := states[k];
            var gone := InFlight(s) == Owed(s) + Deficit(s.count) + Stranded(policy, s) + s.missed;
            && (s.waiting == multiset{} <==> gone)
            && (k < |actions| && actions[k].Dequeue? ==> (Early(actions[k]) <==> gone))
  {
    RunInv(policy, desired, n, states, actions, k);
    assert |states[k].waiting| == 0 <==> states[k].waiting == multiset{};
    if k < |actions| {
      assert Stepped(policy, states, actions, k);
    }
  }

  /** No two threads are inside a call together. */
  ghost predicate OneAtATime(s: State) {
    forall i, j :: 0 <= i < |s.threads| && 0 <= j < |s.threads| && !s.threads[i].Idle? && !s.threads[j].Idle?
      ==> i == j
  }

  /** With calls that do not overlap, the sanity assertion never fails. */
  lemma {:induction false} AtomicCallsNeverMiss(policy: Policy, desired: nat, n: nat, states: seq<State>,
                                                actions: seq<Action>, k: nat)
    requires IsRun(policy, desired, n, states, actions) && k < |states|
    requires forall m :: 0 <= m < k ==> OneAtATime(states[m])
    ensures forall m :: 0 <= m < k ==> !Early(actions[m])
  {
    if k > 0 {
      AtomicCallsNeverMiss(policy, desired, n, states, actions, k - 1);
      var a := actions[k - 1];
      if Early(a) {
        assert Stepped(policy, states, actions, k - 1) && OneAtATime(states[k - 1]);
        var i := EmptyDequeueNeedsAcquirer(policy, desired, n, states, actions, k - 1);
        assert false;
      }
    }
  }

  lemma {:induction false} NeverMissed(policy: Policy, desired: int, n: nat, states: seq<State>,
                                       actions: seq<Action>, k: nat)
    requires IsRun(policy, desired, n, states, actions) && k < |states|
    requires forall m :: 0 <= m < k ==> !Early(actions[m])
    ensures states[k].missed == 0
  {
    if k > 0 {
      NeverMissed(policy, desired, n, states, actions, k - 1);
      assert Stepped(policy, states, actions, k - 1);
    }
  }

  /** Overlapping calls can make it fail: an acquirer decrements, and a release of two finds the
      queue empty before the acquirer enqueues. */
  lemma OverlappingCallsCanMiss(f: Completion) returns (states: seq<State>, actions: seq<Action>)
    ensures IsRun(AsWritten, 0, 2, states, actions) && actions != [] && Early(actions[|actions| - 1])
  {
    var log := [Acquired(f, -1), Released(-1, 2)];
    states, actions := [Init(0, 2)], [];
    states, actions := Extend(AsWritten, 0, 2, states, actions, AcquireStart(0, f),
      State(-1, multiset{}, [], 0, [Enqueueing(f), Idle], [Acquired(f, -1)]));
    states, actions := Extend(AsWritten, 0, 2, states, actions, ReleaseStart(1, 2),
      State(1, multiset{}, [], 0, [Enqueueing(f), Waking(1)], log));
    states, actions := Extend(AsWritten, 0, 2, states, actions, Dequeue(1, None),
      State(1, multiset{}, [], 1, [Enqueueing(f), WakePosting(None, 0)], log));
  }

  // ----- Who is left behind

  /** Exact count, as written: between calls the queue holds the counter's deficit, plus the
      updates of the releases that fell short, plus the dequeues that came too early. */
  lemma ExactlyWhoWaits(desired: nat, n: nat, states: seq<State>, actions: seq<Action>, k: nat)
    requires IsRun(AsWritten, desired, n, states, actions) && k < |states| && Quiescent(states[k])
    ensures var s := states[k];
            |s.waiting| == Deficit(s.count) + Stranded(AsWritten, s) + s.missed
  {
    RunInv(AsWritten, desired, n, states, actions, k);
    FlightsNonNegative(states[k]);
  }

  /** A release that adds permits and still leaves the counter at or below zero. */
  predicate FallsShort(s: State, a: Action) { a.ReleaseStart? && a.update > 0 && s.count + a.update <= 0 }

  /** The steps that leave a waiter behind: a dequeue that comes before its waiter is in the
      queue and, as written, a release that falls short. */
  predicate Amiss(policy: Policy, s: State, a: Action) { Early(a) || (policy.AsWritten? && FallsShort(s, a)) }

  lemma StepFaultlessIff(policy: Policy, s: State, a: Action)
    requires Enabled(s, a)
    ensures var s' := Apply(policy, s, a);
            s'.missed == 0 && Stranded(policy, s') == 0 <==>
              s.missed == 0 && Stranded(policy, s) == 0 && !Amiss(policy, s, a)
  {
    var s' := Apply(policy, s, a);
    StrandedNonNegative(policy, s);
    if s'.log != s.log {
      SumAppend(s.log, s'.log[|s.log|], LossOf(policy));
      if a.ReleaseStart? {
        LossMeaning(policy, s.count, a.update);
      }
    }
  }

  /** Nothing has gone wrong before instant `k`. */
  ghost predicate NothingAmiss(policy: Policy, states: seq<State>, actions: seq<Action>, k: nat)
    requires k <= |actions| <= |states|
  {
    forall m :: 0 <= m < k ==> !Amiss(policy, states[m], actions[m])
  }

  lemma NothingAmissNext(policy: Policy, states: seq<State>, actions: seq<Action>, k: nat)
    requires k < |actions| <= |states|
    ensures NothingAmiss(policy, states, actions, k + 1) <==>
              NothingAmiss(policy, states, actions, k) && !Amiss(policy, states[k], actions[k])
  {}

  /** The books tell. */
  lemma {:induction false} FaultlessIff(policy: Policy, desired: int, n: nat, states: seq<State>,
                                        actions: seq<Action>, k: nat)
    requires IsRun(policy, desired, n, states, actions) && k < |states|
    ensures states[k].missed == 0 && Stranded(policy, states[k]) == 0 <==> NothingAmiss(policy, states, actions, k)
  {
    if k > 0 {
      FaultlessIff(policy, desired, n, states, actions, k - 1);
      assert Stepped(policy, states, actions, k - 1);
      StepFaultlessIff(policy, states[k - 1], actions[k - 1]);
      NothingAmissNext(policy, states, actions, k - 1);
    } else {
      assert states[0].log == [];
    }
  }

  /** Between calls the queue matches the counter if and only if no dequeue came too early and,
      as written, no release ever fell short. */
  lemma NobodyStrandedIff(policy: Policy, desired: nat, n: nat, states: seq<State>, actions: seq<Action>, k: nat)
    requires IsRun(policy, desired, n, states, actions) && k < |states| && Quiescent(states[k])
    ensures |states[k].waiting| == Deficit(states[k].count) <==> NothingAmiss(policy, states, actions, k)
  {
    RunInv(policy, desired, n, states, actions, k);
    FlightsNonNegative(states[k]);
    StrandedNonNegative(policy, states[k]);
    FaultlessIff(policy, desired, n, states, actions, k);
  }

  /** As written, one acquire and one release suffice to leave somebody behind: the counter is
      back at zero and the waiter is still queued. */
  lemma WrittenCanStrand(f: Completion) returns (states: seq<State>, actions: seq<Action>)
    ensures IsRun(AsWritten, 0, 1, states, actions) && Quiescent(states[|actions|])
    ensures states[|actions|].count == 0 && states[|actions|].waiting == multiset{f}
  {
    states, actions := [Init(0, 1)], [];
    states, actions := Extend(AsWritten, 0, 1, states, actions, AcquireStart(0, f),
      State(-1, multiset{}, [], 0, [Enqueueing(f)], [Acquired(f, -1)]));
    states, actions := Extend(AsWritten, 0, 1, states, actions, Enqueue(0),
      State(-1, multiset{f}, [], 0, [Idle], [Acquired(f, -1)]));
    states, actions := Extend(AsWritten, 0, 1, states, actions, ReleaseStart(0, 1),
      State(0, multiset{f}, [], 0, [Idle], [Acquired(f, -1), Released(-1, 1)]));
  }

  /** As documented, an early dequeue leaves a waiter beside a free permit: the wake-up meant for
      an acquirer that has not enqueued yet is lost, and the next release finds nobody to wake. */
  lemma DocumentedCanStrand(f: Completion) returns (states: seq<State>, actions: seq<Action>)
    ensures IsRun(Documented, 0, 2, states, actions) && Quiescent(states[|actions|])
    ensures states[|actions|].count == 1 && states[|actions|].waiting == multiset{f} && states[|actions|].posted == []
  {
    var log := [Acquired(f, -1), Released(-1, 1)];
    states, actions := WakesNobody(f);
    states, actions := Extend(Documented, 0, 2, states, actions, Enqueue(0),
      State(0, multiset{f}, [], 1, [Idle, Idle], log));
    states, actions := Extend(Documented, 0, 2, states, actions, ReleaseStart(1, 1),
      State(1, multiset{f}, [], 1, [Idle, Idle], log + [Released(0, 1)]));
  }

  /** The acquirer has not reached the queue when the release's dequeue looks for it. */
  lemma WakesNobody(f: Completion) returns (states: seq<State>, actions: seq<Action>)
    ensures IsRun(Documented, 0, 2, states, actions)
    ensures states[|actions|] == State(0, multiset{}, [], 1, [Enqueueing(f), Idle], [Acquired(f, -1), Released(-1, 1)])
  {
    var log := [Acquired(f, -1), Released(-1, 1)];
    states, actions := [Init(0, 2)], [];
    states, actions := Extend(Documented, 0, 2, states, actions, AcquireStart(0, f),
      State(-1, multiset{}, [], 0, [Enqueueing(f), Idle], [Acquired(f, -1)]));
    states, actions := Extend(Documented, 0, 2, states, actions, ReleaseStart(1, 1),
      State(0, multiset{}, [], 0, [Enqueueing(f), Waking(1)], log));
    states, actions := Extend(Documented, 0, 2, states, actions, Dequeue(1, None),
      State(0, multiset{}, [], 1, [Enqueueing(f), WakePosting(None, 0)], log));
    states, actions := Extend(Documented, 0, 2, states, actions, Post(1),
      State(0, multiset{}, [], 1, [Enqueueing(f), Idle], log));
  }

  ghost predicate NobodyWakes(s: State) {
    forall t :: 0 <= t < |s.threads| ==> !s.threads[t].Waking? && !s.threads[t].WakePosting?
  }

  lemma UnitStepWakesNobody(s: State, a: Action)
    requires Enabled(s, a) && NobodyWakes(s) && (a.ReleaseStart? ==> a.update <= 1)
    ensures NobodyWakes(Apply(AsWritten, s, a)) && s.waiting <= Apply(AsWritten, s, a).waiting
  {
    if a.ReleaseStart? {
      assert Wake(AsWritten, s.count, a.update) == 0;
    }
  }

  /** As written, unit releases wake nobody: no release ever reaches its loop, so whatever is
      enqueued stays enqueued for the rest of the run. */
  lemma {:induction false} UnitReleasesWakeNobody(desired: int, n: nat, states: seq<State>, actions: seq<Action>,
                                                  j: nat, k: nat)
    requires IsRun(AsWritten, desired, n, states, actions) && j <= k < |states|
    requires forall i :: 0 <= i < |actions| && actions[i].ReleaseStart? ==> actions[i].update <= 1
    ensures states[j].waiting <= states[k].waiting && NobodyWakes(states[k])
    decreases k
  {
    if k > 0 {
      UnitReleasesWakeNobody(desired, n, states, actions, if j == k then k - 1 else j, k - 1);
      assert Stepped(AsWritten, states, actions, k - 1);
      UnitStepWakesNobody(states[k - 1], actions[k - 1]);
    }
  }

  /** As documented, the waiters nobody has answered for are the counter's deficit and the wake-ups
      that came too early, in every state; and between calls, unless a dequeue came too early,
      nobody waits while a permit is free. */
  lemma DocumentedStrandsNobody(desired: nat, n: nat, states: seq<State>, actions: seq<Action>, k: nat)
    requires IsRun(Documented, desired, n, states, actions) && k < |states|
    ensures Waiters(states[k]) == Deficit(states[k].count) + states[k].missed
    ensures Quiescent(states[k]) && states[k].count > 0 && (forall m :: 0 <= m < k ==> !Early(actions[m])) ==>
              states[k].waiting == multiset{}
  {
    RunInv(Documented, desired, n, states, actions, k);
    StrandedNonNegative(Documented, states[k]);
    FlightsNonNegative(states[k]);
    FaultlessIff(Documented, desired, n, states, actions, k);
    assert (forall m :: 0 <= m < k ==> !Early(actions[m])) ==> NothingAmiss(Documented, states, actions, k);
  }
}

/** tcx::basic_semaphore as an object, for callers whose calls do not overlap. Each object
    carries, as ghosts, the execution of the step machine that its method bodies perform, so
    what is proved of executions holds of objects; the sanity assertion in `Release` is proved. */
module Semaphore {
  import opened Collections
  import opened SemaphoreProtocol
  import opened SemaphoreSafety

  class Executor {
    var queue: seq<Completion>

    constructor ()
      ensures queue == []
    {
      queue := [];
    }

    method Post(f: Completion)
      modifies this
      ensures queue == old(queue) + [f]
    {
      queue := queue + [f];
    }
  }

  class BasicSemaphore {
    const executor: Executor
    const desired: nat
    var count: int
    var functions: multiset<Completion>
    ghost var states: seq<State>
    ghost var actions: seq<Action>

    ghost predicate OnTrack()
      reads this
    {
      && IsRun(AsWritten, desired, 1, states, actions)
      && Now().count == count && Now().waiting == functions
      && |Now().threads| == 1
    }

    ghost function Now(): State
      reads this
      requires |states| == |actions| + 1
    {
      states[|actions|]
    }

    ghost predicate Valid()
      reads this
    {
      OnTrack() && Now().threads[0].Idle?
    }

    constructor (executor: Executor, desired: nat)
      ensures Valid() && this.executor == executor && this.desired == desired
      ensures count == desired && functions == multiset{} && actions == []
    {
      this.executor := executor;
      this.desired := desired;
      count, functions := desired, multiset{};
      states, actions := [Init(desired, 1)], [];
    }

    /** Performs one atomic step in the ghost execution. */
    ghost method Advance(a: Action)
      requires IsRun(AsWritten, desired, 1, states, actions) && Enabled(Now(), a)
      modifies this`states, this`actions
      ensures IsRun(AsWritten, desired, 1, states, actions)
      ensures actions == old(actions) + [a] && Now() == Apply(AsWritten, old(Now()), a)
    {
      Lengthen(AsWritten, desired, 1, states, actions, a);
      states, actions := states + [Apply(AsWritten, Now(), a)], actions + [a];
    }

    method AsyncAcquire(f: Completion)
      requires Valid()
      modifies this, executor
      ensures Valid() && count == old(count) - 1
      ensures old(count) > 0 ==> executor.queue == old(executor.queue) + [f] && functions == old(functions)
      ensures old(count) <= 0 ==> executor.queue == old(executor.queue) && functions == old(functions) + multiset{f}
      ensures Now().log == old(Now()).log + [Acquired(f, count)]
    {
      count := count - 1;
      Advance(AcquireStart(0, f));
      if count >= 0 {
        executor.Post(f);
        Advance(Post(0));
      } else {
        functions := functions + multiset{f};
        Advance(Enqueue(0));
      }
    }

    method TryAcquire() returns (ok: bool)
      requires Valid()
      modifies this
      ensures Valid() && functions == old(functions)
      ensures ok <==> old(count) > 0
      ensures count == if ok then old(count) - 1 else old(count)
      ensures Now().log == old(Now()).log + [if ok then TryTook(old(count)) else TryRefused(old(count))]
    {
      var seen := count;
      Advance(TryLoad(0));
      var done := false;
      ok := false;
      while !done
        invariant OnTrack() && functions == old(functions)
        invariant !done ==> !ok && Now().threads[0] == Trying(seen) && seen == count == old(count)
        invariant !done ==> Now().log == old(Now()).log
        invariant done ==> Now().threads[0].Idle? && ok == (old(count) > 0)
        invariant done ==> count == old(count) - (if ok then 1 else 0)
        invariant done ==> Now().log == old(Now()).log + [if ok then TryTook(old(count)) else TryRefused(old(count))]
        decreases !done
      {
        Advance(TryStep(0));
        if seen <= 0 {
          done := true;
        } else if count == seen {
          count := seen - 1;
          ok, done := true, true;
        } else {
          seen := count;
        }
      }
    }

    /** The sanity assertion cannot fail while this object's own loop is the only call. */
    lemma SanityHolds()
      requires OnTrack() && Now().threads[0].Waking? && Now().threads[0].left > 0
      ensures functions != multiset{}
    {
      var s := Now();
      RunInv(AsWritten, desired, 1, states, actions, |actions|);
      StrandedNonNegative(AsWritten, s);
      FlightsNonNegative(s);
      SumNonNegative(s.threads, EnqueuesDue);
      assert |s.waiting| >= DequeuesDue(s.threads[0]);
    }

    /** One round of release's loop: a waiter out of the queue and into the executor. */
    method WakeOne() returns (f: Completion)
      requires OnTrack() && Now().threads[0].Waking? && Now().threads[0].left > 0
      modifies this`functions, this`states, this`actions, executor
      ensures OnTrack() && Now().threads[0] == LoopHead(old(Now()).threads[0].left - 1)
      ensures Now().log == old(Now()).log
      ensures executor.queue == old(executor.queue) + [f] && f in old(functions)
      ensures functions == old(functions) - multiset{f}
    {
      SanityHolds();
      f :| f in functions;
      functions := functions - multiset{f};
      Advance(Dequeue(0, Some(f)));
      executor.Post(f);
      Advance(Post(0));
    }

    method Release(update: nat)
      requires Valid()
      modifies this, executor
      ensures Valid() && count == old(count) + update
      ensures old(executor.queue) <= executor.queue
      ensures |executor.queue| == |old(executor.queue)| +
                                  if old(count) < 0 && old(count) + update > 0 then -old(count) else 0
      ensures functions + multiset(executor.queue[|old(executor.queue)|..]) == old(functions)
      ensures Now().log == old(Now()).log + [Released(old(count), update)]
    {
      var before := count;
      count := count + update;
      Advance(ReleaseStart(0, update));
      if before + update > 0 {
        ghost var woken: seq<Completion> := [];
        var i := 0;
        while i < -before
          invariant OnTrack() && count == before + update && Now().log == old(Now()).log + [Released(before, update)]
          invariant 0 <= i <= Deficit(before) && Now().threads[0] == LoopHead(Deficit(before) - i)
          invariant executor.queue == old(executor.queue) + woken && |woken| == i
          invariant functions + multiset(woken) == old(functions)
        {
          var f := WakeOne();
          woken := woken + [f];
          i := i + 1;
        }
        assert executor.queue[|old(executor.queue)|..] == woken;
      }
    }
  }

  /** Between calls of an object, its queue holds the counter's deficit plus what its releases
      that fell short were worth. */
  lemma ObjectsCountExactly(s: BasicSemaphore)
    requires s.Valid()
    ensures |s.functions| == Deficit(s.count) + Stranded(AsWritten, s.Now())
    ensures TryTotal(s.Now()) + |s.Now().posted| + Max(0, s.count) + Stranded(AsWritten, s.Now())
              == s.desired + ReleasedTotal(s.Now())
  {
    var k := |s.actions|;
    forall m | 0 <= m < k ensures OneAtATime(s.states[m]) {
      RunInv(AsWritten, s.desired, 1, s.states, s.actions, m);
    }
    AtomicCallsNeverMiss(AsWritten, s.desired, 1, s.states, s.actions, k);
    NeverMissed(AsWritten, s.desired, 1, s.states, s.actions, k);
    ExactlyWhoWaits(s.desired, 1, s.states, s.actions, k);
    RunInv(AsWritten, s.desired, 1, s.states, s.actions, k);
    FlightsNonNegative(s.Now());
  }
}

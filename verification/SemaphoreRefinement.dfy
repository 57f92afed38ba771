/** The semaphore, thread by thread and step by step, against one that serves every call at once
    and keeps its waiters in a bag. A release commits to a number of wake-ups in one action;
    which waiter gets each of them is settled, one at a time, when it is served. */
module SemaphoreRefinement {
  import opened Collections
  import opened SemaphoreProtocol
  import opened SemaphoreSafety

  /** Free permits; the waiters; the wake-ups releases have committed to; the completions served
      since the start; and the permits `try_acquire` took since the start. */
  datatype Spec = Spec(permits: int, waiters: multiset<Completion>, owed: int, served: multiset<Completion>, taken: int)

  datatype Call = SpecAcquire(f: Completion) | SpecTake | SpecRelease(update: nat) | SpecServe(f: Completion) | Stutter

  predicate Allowed(a: Spec, c: Call) {
    match c
    case SpecTake => a.permits > 0
    case SpecServe(f) => a.owed > 0 && f in a.waiters
    case _ => true
  }

  function Perform(a: Spec, c: Call): Spec {
    match c
    case SpecAcquire(f) =>
      if a.permits > 0 then a.(permits := a.permits - 1, served := a.served + multiset{f})
      else a.(waiters := a.waiters + multiset{f})
    case SpecTake => a.(permits := a.permits - 1, taken := a.taken + 1)
    case SpecRelease(update) =>
      var woken := Min(update, |a.waiters| - a.owed);
      a.(permits := a.permits + update - woken, owed := a.owed + woken)
    case SpecServe(f) =>
      a.(waiters := a.waiters - multiset{f}, owed := a.owed - 1, served := a.served + multiset{f})
    case Stutter => a
  }

  /** Wake-ups are for waiters, and while a permit is free every waiter has been answered for. */
  ghost predicate SpecInv(a: Spec) {
    0 <= a.permits && 0 <= a.owed <= |a.waiters| && (a.permits > 0 ==> |a.waiters| == a.owed)
  }

  /** The specification is sane: nobody is passed over while a permit is free; permits are only
      made by releases; and a completion is either waiting or served, as often as it was submitted. */
  lemma SpecKeepsInv(a: Spec, c: Call)
    requires SpecInv(a) && Allowed(a, c)
    ensures var b := Perform(a, c);
            && SpecInv(b)
            && b.permits + b.owed + |b.served| + b.taken
                 == a.permits + a.owed + |a.served| + a.taken + (if c.SpecRelease? then c.update else 0)
            && b.waiters + b.served == a.waiters + a.served + (if c.SpecAcquire? then multiset{c.f} else multiset{})
  {}

  // ----- What a state of the code means

  function Arriving(th: Thread): multiset<Completion> {
    if th.Enqueueing? then multiset{th.f} else multiset{}
  }

  function Leaving(th: Thread): multiset<Completion> {
    match th
    case Posting(f) => multiset{f}
    case WakePosting(g, _) => if g.Some? then multiset{g.value} else multiset{}
    case _ => multiset{}
  }

  /** Waiting are the queued and those on their way into the queue; served are the posted and
      those on their way to the executor. */
  ghost function Abstract(s: State): Spec {
    Spec(Max(0, s.count), s.waiting + Gather(s.threads, Arriving), Owed(s),
         multiset(s.posted) + Gather(s.threads, Leaving), TryTotal(s))
  }

  /** The one step of each call that takes effect for everybody else, and each wake-up. */
  function TakesEffect(s: State, a: Action): Call
    requires Enabled(s, a)
  {
    match a
    case AcquireStart(_, f) => SpecAcquire(f)
    case ReleaseStart(_, update) => SpecRelease(update)
    case TryStep(t) => if s.threads[t].seen > 0 && s.count == s.threads[t].seen then SpecTake else Stutter
    case Dequeue(_, g) => if g.Some? then SpecServe(g.value) else Stutter
    case _ => Stutter
  }

  lemma WaitersCount(s: State)
    ensures |Abstract(s).waiters| == |s.waiting| + InFlight(s)
  {
    GatherSize(s.threads, Arriving, EnqueuesDue);
  }

  /** Nothing has gone wrong so far. */
  ghost predicate Faultless(policy: Policy, desired: nat, s: State) {
    Inv(policy, desired, s) && s.missed == 0 && Stranded(policy, s) == 0
  }

  lemma FaultlessIsSane(policy: Policy, desired: nat, s: State)
    requires Faultless(policy, desired, s)
    ensures SpecInv(Abstract(s)) && |Abstract(s).waiters| - Owed(s) == Deficit(s.count)
  {
    WaitersCount(s);
    FlightsNonNegative(s);
  }

  /** How the two bags of the threads move when one thread moves. */
  ghost predicate BagsMove(s: State, s': State, t: nat)
    requires t < |s.threads| == |s'.threads|
  {
    var th, th' := s.threads[t], s'.threads[t];
    && Gather(s'.threads, Arriving) + Arriving(th) == Gather(s.threads, Arriving) + Arriving(th')
    && Gather(s'.threads, Leaving) + Leaving(th) == Gather(s.threads, Leaving) + Leaving(th')
  }

  lemma StepMovesBags(policy: Policy, s: State, a: Action)
    requires Enabled(s, a)
    ensures BagsMove(s, Apply(policy, s, a), a.t)
  {
    var th' := Apply(policy, s, a).threads[a.t];
    assert Apply(policy, s, a).threads == s.threads[a.t := th'];
    GatherUpdate(s.threads, a.t, th', Arriving);
    GatherUpdate(s.threads, a.t, th', Leaving);
  }

  /** What call `c` moves: a waiter enters or leaves, a completion is served. */
  ghost predicate CompletionMoves(s: State, s': State, t: nat, c: Call, f: Completion)
    requires t < |s.threads| == |s'.threads|
  {
    var th, th' := s.threads[t], s'.threads[t];
    && s'.waiting[f] + Arriving(th')[f] + Bit(c == SpecServe(f))
         == s.waiting[f] + Arriving(th)[f] + Bit(c == SpecAcquire(f) && s.count <= 0)
    && multiset(s'.posted)[f] + Leaving(th')[f]
         == multiset(s.posted)[f] + Leaving(th)[f] + Bit(c == SpecServe(f)) + Bit(c == SpecAcquire(f) && s.count > 0)
  }

  lemma StepArrives(policy: Policy, s: State, a: Action, f: Completion)
    requires Enabled(s, a) && (a.AcquireStart? || a.Enqueue?)
    ensures CompletionMoves(s, Apply(policy, s, a), a.t, TakesEffect(s, a), f)
  {
    if a.AcquireStart? {
      assert Leaving(s.threads[a.t]) == Arriving(s.threads[a.t]) == multiset{};
    }
  }

  lemma StepDequeues(policy: Policy, s: State, a: Action, f: Completion)
    requires Enabled(s, a) && a.Dequeue?
    ensures CompletionMoves(s, Apply(policy, s, a), a.t, TakesEffect(s, a), f)
  {
    var th, s' := s.threads[a.t], Apply(policy, s, a);
    assert Arriving(th) == Arriving(s'.threads[a.t]) == Leaving(th) == multiset{} && s'.posted == s.posted;
    if a.g.Some? {
      assert Leaving(s'.threads[a.t]) == multiset{a.g.value};
      TakeOne(s.waiting, a.g.value, f);
    } else {
      assert Leaving(s'.threads[a.t]) == multiset{} && s'.waiting == s.waiting;
    }
  }

  lemma TakeOne(w: multiset<Completion>, g: Completion, f: Completion)
    requires g in w
    ensures (w - multiset{g})[f] + Bit(g == f) == w[f] && multiset{g}[f] == Bit(g == f)
  {}

  /** A step on the executor's side at most. */
  lemma OnlyPosts(s: State, s': State, t: nat, c: Call, f: Completion)
    requires t < |s.threads| == |s'.threads| && !c.SpecServe? && !c.SpecAcquire?
    requires s'.waiting == s.waiting && Arriving(s'.threads[t]) == Arriving(s.threads[t])
    requires multiset(s'.posted)[f] + Leaving(s'.threads[t])[f] == multiset(s.posted)[f] + Leaving(s.threads[t])[f]
    ensures CompletionMoves(s, s', t, c, f)
  {}

  lemma StepPosts(policy: Policy, s: State, a: Action)
    requires Enabled(s, a) && a.Post?
    ensures var s' := Apply(policy, s, a);
            && s'.waiting == s.waiting && Arriving(s'.threads[a.t]) == Arriving(s.threads[a.t])
            && multiset(s'.posted) == multiset(s.posted) + Leaving(s.threads[a.t])
            && Leaving(s'.threads[a.t]) == multiset{}
  {
    var th, s' := s.threads[a.t], Apply(policy, s, a);
    assert s'.threads[a.t].Idle? || s'.threads[a.t].Waking?;
    if Leaving(th) == multiset{} {
      assert s'.posted == s.posted;
    } else {
      var f := if th.Posting? then th.f else th.g.value;
      PostedBag(s.posted, f);
      assert s'.posted == s.posted + [f] && Leaving(th) == multiset{f};
    }
  }

  lemma PostedBag(posted: seq<Completion>, f: Completion)
    ensures multiset(posted + [f]) == multiset(posted) + multiset{f}
  {}

  lemma StepMovesNone(policy: Policy, s: State, a: Action)
    requires Enabled(s, a) && (a.TryLoad? || a.TryStep? || a.ReleaseStart?)
    ensures var s' := Apply(policy, s, a); var th, th' := s.threads[a.t], s'.threads[a.t];
            && s'.waiting == s.waiting && s'.posted == s.posted
            && Arriving(th) == Arriving(th') == multiset{} && Leaving(th) == Leaving(th') == multiset{}
  {
    var th, th' := s.threads[a.t], Apply(policy, s, a).threads[a.t];
    assert th.Idle? || th.Trying?;
    assert th'.Idle? || th'.Trying? || th'.Waking?;
  }

  lemma StepMovesCompletion(policy: Policy, s: State, a: Action, f: Completion)
    requires Enabled(s, a)
    ensures CompletionMoves(s, Apply(policy, s, a), a.t, TakesEffect(s, a), f)
  {
    if a.Dequeue? {
      StepDequeues(policy, s, a, f);
    } else if a.AcquireStart? || a.Enqueue? {
      StepArrives(policy, s, a, f);
    } else {
      if a.Post? {
        StepPosts(policy, s, a);
      } else {
        StepMovesNone(policy, s, a);
      }
      OnlyPosts(s, Apply(policy, s, a), a.t, TakesEffect(s, a), f);
    }
  }

  /** A shared bag and what the threads hold, when one thread's holding changes from `x` to `x'`. */
  lemma JointCount(w: multiset<Completion>, g: multiset<Completion>, x: multiset<Completion>,
                   w': multiset<Completion>, g': multiset<Completion>, x': multiset<Completion>, f: Completion)
    requires g' + x == g + x'
    ensures (w' + g')[f] + w[f] + x[f] == (w + g)[f] + w'[f] + x'[f]
  {
    assert (g' + x)[f] == (g + x')[f];
  }

  /** Then the bags of waiters and served completions move as the specification's do. */
  lemma CountsMove(s: State, s': State, t: nat, c: Call, f: Completion)
    requires t < |s.threads| == |s'.threads| && BagsMove(s, s', t) && CompletionMoves(s, s', t, c, f)
    requires c.SpecServe? ==> c.f in s.waiting
    ensures Abstract(s').waiters[f] == Perform(Abstract(s), c).waiters[f]
    ensures Abstract(s').served[f] == Perform(Abstract(s), c).served[f]
  {
    var th, th' := s.threads[t], s'.threads[t];
    JointCount(s.waiting, Gather(s.threads, Arriving), Arriving(th),
               s'.waiting, Gather(s'.threads, Arriving), Arriving(th'), f);
    JointCount(multiset(s.posted), Gather(s.threads, Leaving), Leaving(th),
               multiset(s'.posted), Gather(s'.threads, Leaving), Leaving(th'), f);
    PerformMoves(Abstract(s), c, f);
  }

  lemma PerformMoves(a: Spec, c: Call, f: Completion)
    requires c.SpecServe? ==> c.f in a.waiters
    ensures Perform(a, c).waiters[f] + Bit(c == SpecServe(f))
              == a.waiters[f] + Bit(c == SpecAcquire(f) && a.permits <= 0)
    ensures Perform(a, c).served[f] == a.served[f] + Bit(c == SpecServe(f)) + Bit(c == SpecAcquire(f) && a.permits > 0)
  {}

  lemma SameCounts(b: multiset<Completion>, c: multiset<Completion>)
    requires forall f :: b[f] == c[f]
    ensures b == c
  {}

  lemma StepMovesCounts(policy: Policy, s: State, a: Action, f: Completion)
    requires Enabled(s, a)
    ensures Abstract(Apply(policy, s, a)).waiters[f] == Perform(Abstract(s), TakesEffect(s, a)).waiters[f]
    ensures Abstract(Apply(policy, s, a)).served[f] == Perform(Abstract(s), TakesEffect(s, a)).served[f]
  {
    StepMovesBags(policy, s, a);
    StepMovesCompletion(policy, s, a, f);
    CountsMove(s, Apply(policy, s, a), a.t, TakesEffect(s, a), f);
  }

  /** Whatever the policy, waiters and served completions move as the specification moves them. */
  lemma BagsRefine(policy: Policy, s: State, a: Action)
    requires Enabled(s, a)
    ensures Abstract(Apply(policy, s, a)).waiters == Perform(Abstract(s), TakesEffect(s, a)).waiters
    ensures Abstract(Apply(policy, s, a)).served == Perform(Abstract(s), TakesEffect(s, a)).served
  {
    var b, c := Abstract(Apply(policy, s, a)), Perform(Abstract(s), TakesEffect(s, a));
    forall f ensures b.waiters[f] == c.waiters[f] && b.served[f] == c.served[f] {
      StepMovesCounts(policy, s, a, f);
    }
    SameCounts(b.waiters, c.waiters);
    SameCounts(b.served, c.served);
  }

  lemma TakenMoves(policy: Policy, s: State, a: Action)
    requires Enabled(s, a)
    ensures TryTotal(Apply(policy, s, a)) == TryTotal(s) + if TakesEffect(s, a).SpecTake? then 1 else 0
  {
    var s' := Apply(policy, s, a);
    if |s'.log| > |s.log| {
      SumAppend(s.log, s'.log[|s.log|], TryCount);
    }
  }

  lemma OwedMoves(policy: Policy, s: State, a: Action)
    requires Enabled(s, a)
    ensures Owed(Apply(policy, s, a)) == Owed(s) + match a
              case ReleaseStart(_, update) => Wake(policy, s.count, update)
              case Dequeue(_, _) => -1
              case _ => 0
  {
    SumUpdate(s.threads, a.t, Apply(policy, s, a).threads[a.t], DequeuesDue);
  }

  /** So do the numbers, except in the steps that leave a waiter behind. */
  ghost predicate NumbersRefine(b: Spec, c: Spec) { b.permits == c.permits && b.owed == c.owed && b.taken == c.taken }

  lemma NumbersRefineIff(policy: Policy, s: State, a: Action)
    requires Enabled(s, a) && |Abstract(s).waiters| - Owed(s) == Deficit(s.count)
    ensures NumbersRefine(Abstract(Apply(policy, s, a)), Perform(Abstract(s), TakesEffect(s, a))) <==>
              !Amiss(policy, s, a)
  {
    if a.ReleaseStart? {
      ReleaseRefinesIff(policy, s, a);
    } else {
      OtherRefinesIff(policy, s, a);
    }
  }

  lemma ReleaseRefinesIff(policy: Policy, s: State, a: Action)
    requires Enabled(s, a) && a.ReleaseStart? && |Abstract(s).waiters| - Owed(s) == Deficit(s.count)
    ensures NumbersRefine(Abstract(Apply(policy, s, a)), Perform(Abstract(s), TakesEffect(s, a))) <==>
              !Amiss(policy, s, a)
  {
    OwedMoves(policy, s, a);
    TakenMoves(policy, s, a);
    ReleaseNumbersIff(policy, s, Apply(policy, s, a), a.update);
  }

  lemma OtherRefinesIff(policy: Policy, s: State, a: Action)
    requires Enabled(s, a) && !a.ReleaseStart?
    ensures NumbersRefine(Abstract(Apply(policy, s, a)), Perform(Abstract(s), TakesEffect(s, a))) <==>
              !Amiss(policy, s, a)
  {
    CountMoves(policy, s, a);
    OtherOwedMoves(policy, s, a);
    OtherNumbersIff(s, Apply(policy, s, a), TakesEffect(s, a), Early(a));
  }

  lemma OtherOwedMoves(policy: Policy, s: State, a: Action)
    requires Enabled(s, a) && !a.ReleaseStart?
    ensures var s', c := Apply(policy, s, a), TakesEffect(s, a);
            && Owed(s') == Owed(s) - Bit(c.SpecServe?) - Bit(Early(a)) && TryTotal(s') == TryTotal(s) + Bit(c.SpecTake?)
            && !c.SpecRelease?
  {
    OwedMoves(policy, s, a);
    TakenMoves(policy, s, a);
  }

  lemma ReleaseNumbersIff(policy: Policy, s: State, s': State, update: nat)
    requires |Abstract(s).waiters| - Owed(s) == Deficit(s.count)
    requires s'.count == s.count + update && Owed(s') == Owed(s) + Wake(policy, s.count, update)
    requires TryTotal(s') == TryTotal(s)
    ensures NumbersRefine(Abstract(s'), Perform(Abstract(s), SpecRelease(update))) <==>
              !(policy.AsWritten? && update > 0 && s.count + update <= 0)
  {
    WakesAsMany(policy, s.count, update);
  }

  lemma OtherNumbersIff(s: State, s': State, c: Call, lost: bool)
    requires !c.SpecRelease? && (c.SpecTake? ==> s.count > 0)
    requires s'.count == s.count - Bit(c.SpecAcquire? || c.SpecTake?)
    requires Owed(s') == Owed(s) - Bit(c.SpecServe?) - Bit(lost) && TryTotal(s') == TryTotal(s) + Bit(c.SpecTake?)
    ensures NumbersRefine(Abstract(s'), Perform(Abstract(s), c)) <==> !lost
  {}

  lemma CountMoves(policy: Policy, s: State, a: Action)
    requires Enabled(s, a) && !a.ReleaseStart?
    ensures var c := TakesEffect(s, a);
            Apply(policy, s, a).count == s.count - Bit(c.SpecAcquire? || c.SpecTake?) && (c.SpecTake? ==> s.count > 0)
  {}

  /** The code wakes the waiters the specification wakes, unless the release falls short. */
  lemma WakesAsMany(policy: Policy, before: int, update: nat)
    ensures Wake(policy, before, update) == Min(update, Deficit(before)) <==>
              !(policy.AsWritten? && update > 0 && before + update <= 0)
    ensures Max(0, before + update) == Max(0, before) + update - Min(update, Deficit(before))
  {}

  /** Exactly which steps are the specification's: all but those that leave a waiter behind. */
  lemma StepRefinesIff(policy: Policy, desired: nat, s: State, a: Action)
    requires Faultless(policy, desired, s) && Enabled(s, a)
    ensures SpecInv(Abstract(s)) && Allowed(Abstract(s), TakesEffect(s, a))
    ensures Abstract(Apply(policy, s, a)) == Perform(Abstract(s), TakesEffect(s, a)) <==> !Amiss(policy, s, a)
  {
    FaultlessIsSane(policy, desired, s);
    BagsRefine(policy, s, a);
    NumbersRefineIff(policy, s, a);
    OwesSomething(s, a);
  }

  lemma OwesSomething(s: State, a: Action)
    requires Enabled(s, a)
    ensures a.Dequeue? ==> Owed(s) > 0
  {
    FlightsNonNegative(s);
    assert DequeuesDue(s.threads[a.t]) <= Owed(s);
  }

  /** A step that leaves a waiter behind is no other call of the specification in disguise: an early
      dequeue is none at all, and a release that falls short is one that does nothing. */
  lemma AmissIsNoCall(policy: Policy, desired: nat, s: State, a: Action, c: Call)
    requires Faultless(policy, desired, s) && Enabled(s, a) && Amiss(policy, s, a) && Allowed(Abstract(s), c)
    ensures Abstract(Apply(policy, s, a)) == Perform(Abstract(s), c) ==>
              FallsShort(s, a) && Perform(Abstract(s), c) == Abstract(s)
  {
    FaultlessIsSane(policy, desired, s);
    if Early(a) {
      EarlyForgets(policy, s, a);
      DoesNotJustForget(Abstract(s), c);
    } else {
      ShortDoesNothing(policy, s, a);
    }
  }

  lemma EarlyForgets(policy: Policy, s: State, a: Action)
    requires Enabled(s, a) && Early(a)
    ensures Abstract(Apply(policy, s, a)) == Abstract(s).(owed := Owed(s) - 1)
  {
    BagsRefine(policy, s, a);
    OwedMoves(policy, s, a);
    TakenMoves(policy, s, a);
  }

  lemma ShortDoesNothing(policy: Policy, s: State, a: Action)
    requires Enabled(s, a) && policy.AsWritten? && FallsShort(s, a)
    ensures Abstract(Apply(policy, s, a)) == Abstract(s)
  {
    BagsRefine(policy, s, a);
    OwedMoves(policy, s, a);
    TakenMoves(policy, s, a);
  }

  /** No call of the specification gives up a wake-up without serving somebody. */
  lemma DoesNotJustForget(a: Spec, c: Call)
    requires SpecInv(a) && Allowed(a, c)
    ensures Perform(a, c) != a.(owed := a.owed - 1)
  {
    if c.SpecServe? || c.SpecAcquire? {
      var b := Perform(a, c);
      assert b.waiters[c.f] != a.waiters[c.f] || b.served[c.f] != a.served[c.f];
    }
  }

  /** Seen through `Abstract`, step `k` is the action of the specification it stands for. */
  ghost predicate Refines(states: seq<State>, actions: seq<Action>, k: nat)
    requires k < |actions| < |states|
  {
    && Enabled(states[k], actions[k]) && Allowed(Abstract(states[k]), TakesEffect(states[k], actions[k]))
    && Abstract(states[k + 1]) == Perform(Abstract(states[k]), TakesEffect(states[k], actions[k]))
  }

  ghost predicate RefinesUpTo(states: seq<State>, actions: seq<Action>, k: nat)
    requires k <= |actions| < |states|
  {
    forall m :: 0 <= m < k ==> Refines(states, actions, m)
  }

  lemma RefinesNext(states: seq<State>, actions: seq<Action>, k: nat)
    requires k < |actions| < |states|
    ensures RefinesUpTo(states, actions, k + 1) <==> RefinesUpTo(states, actions, k) && Refines(states, actions, k)
  {}

  lemma InitAbstract(desired: nat, n: nat)
    ensures Abstract(Init(desired, n)) == Spec(desired, multiset{}, 0, multiset{}, 0)
  {
    var s := Init(desired, n);
    GatherSize(s.threads, Arriving, EnqueuesDue);
    GatherSize(s.threads, Leaving, PostsDue);
    FlightsNonNegative(s);
  }

  lemma NextRefinesIff(policy: Policy, desired: nat, n: nat, states: seq<State>, actions: seq<Action>, k: nat)
    requires IsRun(policy, desired, n, states, actions) && k < |actions| && NothingAmiss(policy, states, actions, k)
    ensures SpecInv(Abstract(states[k]))
    ensures Refines(states, actions, k) <==> !Amiss(policy, states[k], actions[k])
  {
    FaultlessIff(policy, desired, n, states, actions, k);
    RunInv(policy, desired, n, states, actions, k);
    assert Stepped(policy, states, actions, k);
    StepRefinesIff(policy, desired, states[k], actions[k]);
  }

  /** An execution, up to any instant, is an execution of the specification if and only if no dequeue
      found the queue empty and, as the code is written, no release fell short. */
  lemma {:induction false} RunRefinesIff(policy: Policy, desired: nat, n: nat, states: seq<State>,
                                         actions: seq<Action>, k: nat)
    requires IsRun(policy, desired, n, states, actions) && k <= |actions|
    ensures Abstract(states[0]) == Spec(desired, multiset{}, 0, multiset{}, 0)
    ensures RefinesUpTo(states, actions, k) <==> NothingAmiss(policy, states, actions, k)
  {
    if k > 0 {
      RunRefinesIff(policy, desired, n, states, actions, k - 1);
      UpToNextIff(policy, desired, n, states, actions, k - 1);
    } else {
      InitAbstract(desired, n);
    }
  }

  lemma UpToNextIff(policy: Policy, desired: nat, n: nat, states: seq<State>, actions: seq<Action>, k: nat)
    requires IsRun(policy, desired, n, states, actions) && k < |actions|
    requires RefinesUpTo(states, actions, k) <==> NothingAmiss(policy, states, actions, k)
    ensures RefinesUpTo(states, actions, k + 1) <==> NothingAmiss(policy, states, actions, k + 1)
  {
    RefinesNext(states, actions, k);
    NothingAmissNext(policy, states, actions, k);
    if NothingAmiss(policy, states, actions, k) {
      NextRefinesIff(policy, desired, n, states, actions, k);
    }
  }

  /** So the documented semaphore is the specification wherever the queue never comes up empty; in
      particular when calls do not overlap. */
  lemma DocumentedRefinesSpec(desired: nat, n: nat, states: seq<State>, actions: seq<Action>)
    requires IsRun(Documented, desired, n, states, actions)
    requires (forall m :: 0 <= m < |actions| ==> !Early(actions[m]))
             || (forall m :: 0 <= m < |actions| ==> OneAtATime(states[m]))
    ensures RefinesUpTo(states, actions, |actions|)
    ensures forall k :: 0 <= k < |actions| ==> SpecInv(Abstract(states[k]))
  {
    if forall m :: 0 <= m < |actions| ==> OneAtATime(states[m]) {
      AtomicCallsNeverMiss(Documented, desired, n, states, actions, |actions|);
    }
    assert NothingAmiss(Documented, states, actions, |actions|);
    RunRefinesIff(Documented, desired, n, states, actions, |actions|);
    forall k | 0 <= k < |actions| ensures SpecInv(Abstract(states[k])) {
      assert NothingAmiss(Documented, states, actions, k);
      NextRefinesIff(Documented, desired, n, states, actions, k);
    }
  }

  /** Why the specification settles each wake-up on its own: a completion submitted after a release
      can be served by it, while the one that waited before stays. */
  lemma LaterMayOvertake(f: Completion, g: Completion) returns (states: seq<State>, actions: seq<Action>)
    ensures IsRun(Documented, 0, 2, states, actions) && |actions| == 7 && Quiescent(states[7])
    ensures actions[2] == ReleaseStart(1, 1) && states[2].waiting == multiset{f}
    ensures states[7].waiting == multiset{f} && states[7].posted == [g]
  {
    var log := [Acquired(f, -1), Released(-1, 1), Acquired(g, -1)];
    states, actions := AnotherArrives(f, g);
    assert multiset{f, g} - multiset{g} == multiset{f};
    states, actions := Extend(Documented, 0, 2, states, actions, Dequeue(1, Some(g)),
      State(-1, multiset{f}, [], 0, [Idle, WakePosting(Some(g), 0)], log));
    states, actions := Extend(Documented, 0, 2, states, actions, Post(1),
      State(-1, multiset{f}, [g], 0, [Idle, Idle], log));
  }

  lemma AnotherArrives(f: Completion, g: Completion) returns (states: seq<State>, actions: seq<Action>)
    ensures IsRun(Documented, 0, 2, states, actions) && |actions| == 5
    ensures actions[2] == ReleaseStart(1, 1) && states[2].waiting == multiset{f}
    ensures states[5] == State(-1, multiset{f, g}, [], 0, [Idle, Waking(1)],
                               [Acquired(f, -1), Released(-1, 1), Acquired(g, -1)])
  {
    var log := [Acquired(f, -1), Released(-1, 1), Acquired(g, -1)];
    states, actions := WaitsAndIsReleased(f);
    states, actions := Extend(Documented, 0, 2, states, actions, AcquireStart(0, g),
      State(-1, multiset{f}, [], 0, [Enqueueing(g), Waking(1)], log));
    states, actions := Extend(Documented, 0, 2, states, actions, Enqueue(0),
      State(-1, multiset{f, g}, [], 0, [Idle, Waking(1)], log));
  }

  lemma WaitsAndIsReleased(f: Completion) returns (states: seq<State>, actions: seq<Action>)
    ensures IsRun(Documented, 0, 2, states, actions) && |actions| == 3
    ensures actions[2] == ReleaseStart(1, 1) && states[2].waiting == multiset{f}
    ensures states[3] == State(0, multiset{f}, [], 0, [Idle, Waking(1)], [Acquired(f, -1), Released(-1, 1)])
  {
    states, actions := [Init(0, 2)], [];
    states, actions := Extend(Documented, 0, 2, states, actions, AcquireStart(0, f),
      State(-1, multiset{}, [], 0, [Enqueueing(f), Idle], [Acquired(f, -1)]));
    states, actions := Extend(Documented, 0, 2, states, actions, Enqueue(0),
      State(-1, multiset{f}, [], 0, [Idle, Idle], [Acquired(f, -1)]));
    states, actions := Extend(Documented, 0, 2, states, actions, ReleaseStart(1, 1),
      State(0, multiset{f}, [], 0, [Idle, Waking(1)], [Acquired(f, -1), Released(-1, 1)]));
  }
}

/** tcx::basic_semaphore as a state machine over its atomic steps.

    The shared state is the signed counter, the unordered bag of waiting completions and
    the executor's queue; each thread is at one point of one call. Any number of threads
    interleave in any order. `log` is a history of the read-modify-write operations on the
    counter: the theorems relate the shared state to that independent record. */
module SemaphoreProtocol {
  import opened Collections

  type Completion = nat

  /** How many waiters a release that found the counter at `before` sets out to wake:
      by the code as it is written, or by what its documentation promises. */
  datatype Policy = AsWritten | Documented

  /** Where a thread is inside a call. `Waking(left)` is at the head of release's loop with
      `left` dequeues to go; `WakePosting` holds what the dequeue gave. */
  datatype Thread =
    | Idle
    | Posting(f: Completion)
    | Enqueueing(f: Completion)
    | Trying(seen: int)
    | Waking(left: nat)
    | WakePosting(g: Option<Completion>, rest: nat)

  datatype Event =
    | Acquired(f: Completion, value: int)
    | Released(before: int, update: nat)
    | TryTook(seen: int)
    | TryRefused(seen: int)

  datatype State = State(count: int, waiting: multiset<Completion>, posted: seq<Completion>,
                         missed: nat, threads: seq<Thread>, log: seq<Event>)

  datatype Action =
    | AcquireStart(t: nat, f: Completion)
    | Post(t: nat)
    | Enqueue(t: nat)
    | TryLoad(t: nat)
    | TryStep(t: nat)
    | ReleaseStart(t: nat, update: nat)
    | Dequeue(t: nat, g: Option<Completion>)

  function Deficit(count: int): nat { if count < 0 then -count else 0 }

  function Wake(policy: Policy, before: int, update: nat): nat {
    match policy
    case AsWritten => if before + update > 0 then Deficit(before) else 0
    case Documented => Min(update, Deficit(before))
  }

  function Init(desired: int, n: nat): State {
    State(desired, multiset{}, [], 0, seq(n, _ => Idle), [])
  }

  predicate Enabled(s: State, a: Action) {
    a.t < |s.threads| &&
    var pc := s.threads[a.t];
    match a
    case AcquireStart(_, _) => pc.Idle?
    case Post(_) => pc.Posting? || pc.WakePosting?
    case Enqueue(_) => pc.Enqueueing?
    case TryLoad(_) => pc.Idle?
    case TryStep(_) => pc.Trying?
    case ReleaseStart(_, _) => pc.Idle?
    case Dequeue(_, g) => pc.Waking? && pc.left > 0 &&
                          (if g.Some? then g.value in s.waiting else s.waiting == multiset{})
  }

  function LoopHead(left: nat): Thread { if left == 0 then Idle else Waking(left) }

  /** One atomic step. */
  function Apply(policy: Policy, s: State, a: Action): State
    requires Enabled(s, a)
  {
    var pc := s.threads[a.t];
    match a
    case AcquireStart(t, f) =>
      var value := s.count - 1;
      s.(count := value, log := s.log + [Acquired(f, value)],
         threads := s.threads[t := if value >= 0 then Posting(f) else Enqueueing(f)])
    case Post(t) =>
      if pc.Posting? then
        s.(posted := s.posted + [pc.f], threads := s.threads[t := Idle])
      else
        s.(posted := if pc.g.Some? then s.posted + [pc.g.value] else s.posted,
           threads := s.threads[t := LoopHead(pc.rest)])
    case Enqueue(t) =>
      s.(waiting := s.waiting + multiset{pc.f}, threads := s.threads[t := Idle])
    case TryLoad(t) =>
      s.(threads := s.threads[t := Trying(s.count)])
    case TryStep(t) =>
      if pc.seen <= 0 then
        s.(threads := s.threads[t := Idle], log := s.log + [TryRefused(pc.seen)])
      else if s.count == pc.seen then
        s.(count := s.count - 1, threads := s.threads[t := Idle], log := s.log + [TryTook(pc.seen)])
      else
        s.(threads := s.threads[t := Trying(s.count)])
    case ReleaseStart(t, update) =>
      s.(count := s.count + update, log := s.log + [Released(s.count, update)],
         threads := s.threads[t := LoopHead(Wake(policy, s.count, update))])
    case Dequeue(t, g) =>
      s.(waiting := if g.Some? then s.waiting - multiset{g.value} else s.waiting,
         missed := if g.Some? then s.missed else s.missed + 1,
         threads := s.threads[t := WakePosting(g, pc.left - 1)])
  }

  ghost predicate Stepped(policy: Policy, states: seq<State>, actions: seq<Action>, i: nat) {
    i < |actions| < |states| && Enabled(states[i], actions[i]) && states[i + 1] == Apply(policy, states[i], actions[i])
  }

  /** `states` is an execution of `n` threads, driven by `actions`, from counter `desired`. */
  ghost predicate IsRun(policy: Policy, desired: int, n: nat, states: seq<State>, actions: seq<Action>) {
    && |states| == |actions| + 1 && states[0] == Init(desired, n)
    && forall i: nat :: i < |actions| ==> Stepped(policy, states, actions, i)
  }

  /** One more step of an execution. */
  lemma Extend(policy: Policy, desired: int, n: nat, states: seq<State>, actions: seq<Action>, a: Action, s: State)
      returns (states': seq<State>, actions': seq<Action>)
    requires IsRun(policy, desired, n, states, actions)
    requires Enabled(states[|actions|], a) && s == Apply(policy, states[|actions|], a)
    ensures states' == states + [s] && actions' == actions + [a] && states'[|actions'|] == s
    ensures IsRun(policy, desired, n, states', actions')
  {
    states', actions' := states + [s], actions + [a];
    Lengthen(policy, desired, n, states, actions, a);
  }

  lemma Lengthen(policy: Policy, desired: int, n: nat, states: seq<State>, actions: seq<Action>, a: Action)
    requires IsRun(policy, desired, n, states, actions) && Enabled(states[|actions|], a)
    ensures IsRun(policy, desired, n, states + [Apply(policy, states[|actions|], a)], actions + [a])
  {
    var states', actions' := states + [Apply(policy, states[|actions|], a)], actions + [a];
    forall i: nat | i < |actions'| ensures Stepped(policy, states', actions', i) {
      if i < |actions| {
        assert Stepped(policy, states, actions, i);
      }
    }
  }

  // ----- What the history says

  function Freed(e: Event): int { if e.Released? then e.update else 0 }

  /** The waiters a release ought to have answered for but did not set out to wake. */
  function Loss(policy: Policy, before: int, update: nat): int {
    Deficit(before) - Deficit(before + update) - Wake(policy, before, update)
  }

  function LossOf(policy: Policy): Event -> int {
    (e: Event) => if e.Released? then Loss(policy, e.before, e.update) else 0
  }

  /** Permits given away by one operation: to a caller at once, to a `try_acquire`, to waiters. */
  function GrantOf(policy: Policy): Event -> int {
    (e: Event) =>
      match e
      case Acquired(_, value) => if value >= 0 then 1 else 0
      case TryTook(_) => 1
      case TryRefused(_) => 0
      case Released(before, update) => Wake(policy, before, update)
  }

  function TryCount(e: Event): int { if e.TryTook? then 1 else 0 }

  function Submits(f: Completion): Event -> int {
    (e: Event) => if e.Acquired? && e.f == f then 1 else 0
  }

  function Stranded(policy: Policy, s: State): int { Sum(s.log, LossOf(policy)) }
  function Granted(policy: Policy, s: State): int { Sum(s.log, GrantOf(policy)) }
  function ReleasedTotal(s: State): int { Sum(s.log, Freed) }
  function TryTotal(s: State): int { Sum(s.log, TryCount) }
  function Submitted(s: State, f: Completion): int { Sum(s.log, Submits(f)) }

  // ----- What is in flight in the threads

  function EnqueuesDue(th: Thread): int { if th.Enqueueing? then 1 else 0 }

  function DequeuesDue(th: Thread): int {
    match th case Waking(left) => left case WakePosting(_, rest) => rest case _ => 0
  }

  function PostsDue(th: Thread): int {
    if th.Posting? || (th.WakePosting? && th.g.Some?) then 1 else 0
  }

  function Same(f: Completion): Completion -> int { (g: Completion) => if g == f then 1 else 0 }

  /** How often `f` was posted. */
  function PostsOf(s: State, f: Completion): int { Sum(s.posted, Same(f)) }

  function Holds(f: Completion): Thread -> int {
    (th: Thread) =>
      match th
      case Posting(g) => if g == f then 1 else 0
      case Enqueueing(g) => if g == f then 1 else 0
      case WakePosting(g, _) => if g == Some(f) then 1 else 0
      case _ => 0
  }

  function InFlight(s: State): int { Sum(s.threads, EnqueuesDue) }
  function Owed(s: State): int { Sum(s.threads, DequeuesDue) }
  function PostsInFlight(s: State): int { Sum(s.threads, PostsDue) }
  function Held(s: State, f: Completion): int { Sum(s.threads, Holds(f)) }

  /** Waiters nobody has answered for: queued or about to be, less the dequeues still owed. */
  function Waiters(s: State): int { |s.waiting| + InFlight(s) - Owed(s) }

  ghost predicate Quiescent(s: State) {
    forall i :: 0 <= i < |s.threads| ==> s.threads[i].Idle?
  }

  /** A dequeue that finds the queue empty, so that the sanity assertion fails. */
  predicate Early(a: Action) { a.Dequeue? && a.g.None? }

  // ----- The invariant

  /** Three balances: waiters against the counter, permits against the history, and
      deliveries against grants. A dequeue that came too early shows up in two of them: its
      waiter still waits, and its grant was never delivered. */
  ghost predicate Inv(policy: Policy, desired: int, s: State) {
    && Waiters(s) == Deficit(s.count) - Deficit(desired) + Stranded(policy, s) + s.missed
    && Granted(policy, s) + Max(0, s.count) + Stranded(policy, s) == Max(0, desired) + ReleasedTotal(s)
    && Granted(policy, s) == TryTotal(s) + |s.posted| + PostsInFlight(s) + Owed(s) + s.missed
  }

  /** Every submission of a completion is queued, posted or in one thread's hands. */
  ghost predicate Conserved(s: State, f: Completion) {
    Submitted(s, f) == s.waiting[f] + PostsOf(s, f) + Held(s, f)
  }

  ghost predicate AllConserved(s: State) { forall f :: Conserved(s, f) }

  lemma InitInv(policy: Policy, desired: int, n: nat)
    ensures Inv(policy, desired, Init(desired, n))
    ensures AllConserved(Init(desired, n))
  {
    var s := Init(desired, n);
    SumNonNegative(s.threads, EnqueuesDue);
    SumNonNegative(s.threads, DequeuesDue);
    SumNonNegative(s.threads, PostsDue);
    forall f ensures Conserved(s, f) {
      SumNonNegative(s.threads, Holds(f));
    }
  }

  /** How every ledger over the history moves when one event is recorded. */
  lemma LogLedgers(policy: Policy, s: State, s': State, e: Event)
    requires s'.log == s.log + [e]
    ensures Stranded(policy, s') == Stranded(policy, s) + LossOf(policy)(e)
    ensures Granted(policy, s') == Granted(policy, s) + GrantOf(policy)(e)
    ensures ReleasedTotal(s') == ReleasedTotal(s) + Freed(e)
    ensures TryTotal(s') == TryTotal(s) + TryCount(e)
  {
    SumAppend(s.log, e, LossOf(policy));
    SumAppend(s.log, e, GrantOf(policy));
    SumAppend(s.log, e, Freed);
    SumAppend(s.log, e, TryCount);
  }

  /** A step moves completions between the queue, the executor and the threads, and creates
      none except the one it submits. */
  lemma StepConserves(policy: Policy, s: State, a: Action, f: Completion)
    requires Enabled(s, a) && Conserved(s, f)
    ensures Conserved(Apply(policy, s, a), f)
  {
    HandsChange(policy, s, a, f);
    HeldChange(policy, s, a, f);
    SubmittedChange(policy, s, a, f);
  }

  lemma HeldChange(policy: Policy, s: State, a: Action, f: Completion)
    requires Enabled(s, a)
    ensures var s' := Apply(policy, s, a);
            Held(s', f) == Held(s, f) - Holds(f)(s.threads[a.t]) + Holds(f)(s'.threads[a.t])
  {
    SumUpdate(s.threads, a.t, Apply(policy, s, a).threads[a.t], Holds(f));
  }

  lemma SubmittedChange(policy: Policy, s: State, a: Action, f: Completion)
    requires Enabled(s, a)
    ensures Submitted(Apply(policy, s, a), f) == Submitted(s, f) + if a.AcquireStart? && a.f == f then 1 else 0
  {
    var s' := Apply(policy, s, a);
    if s'.log != s.log {
      SumAppend(s.log, s'.log[|s.log|], Submits(f));
    }
  }

  /** What one step puts into or takes out of the queue and the executor came from, or went to,
      its own thread. */
  lemma HandsChange(policy: Policy, s: State, a: Action, f: Completion)
    requires Enabled(s, a)
    ensures var s' := Apply(policy, s, a);
            s'.waiting[f] + PostsOf(s', f) + Holds(f)(s'.threads[a.t])
              == s.waiting[f] + PostsOf(s, f) + Holds(f)(s.threads[a.t])
                 + if a.AcquireStart? && a.f == f then 1 else 0
  {
    if a.Post? {
      PostChange(policy, s, a, f);
    } else if a.Dequeue? {
      DequeueChange(policy, s, a, f);
    }
  }

  lemma PostChange(policy: Policy, s: State, a: Action, f: Completion)
    requires Enabled(s, a) && a.Post?
    ensures var s' := Apply(policy, s, a);
            && s'.waiting == s.waiting && Holds(f)(s'.threads[a.t]) == 0
            && PostsOf(s', f) == PostsOf(s, f) + Holds(f)(s.threads[a.t])
  {
    var pc := s.threads[a.t];
    if pc.Posting? {
      SumAppend(s.posted, pc.f, Same(f));
    } else if pc.g.Some? {
      SumAppend(s.posted, pc.g.value, Same(f));
    }
  }

  lemma DequeueChange(policy: Policy, s: State, a: Action, f: Completion)
    requires Enabled(s, a) && a.Dequeue?
    ensures var s' := Apply(policy, s, a);
            && s'.posted == s.posted && Holds(f)(s.threads[a.t]) == 0
            && s.waiting[f] == s'.waiting[f] + Holds(f)(s'.threads[a.t])
  {}

  /** The waiters due to a step's own thread, and those in the queue, are all that it changes. */
  lemma WaitersDue(policy: Policy, s: State, a: Action)
    requires Enabled(s, a)
    ensures var s' := Apply(policy, s, a);
            Waiters(s') == Waiters(s) + |s'.waiting| - |s.waiting|
              + EnqueuesDue(s'.threads[a.t]) - EnqueuesDue(s.threads[a.t])
              - DequeuesDue(s'.threads[a.t]) + DequeuesDue(s.threads[a.t])
  {
    var th' := Apply(policy, s, a).threads[a.t];
    SumUpdate(s.threads, a.t, th', EnqueuesDue);
    SumUpdate(s.threads, a.t, th', DequeuesDue);
  }

  /** What one step does to the unanswered waiters, the early dequeues among them being no answers. */
  lemma WaitersMove(policy: Policy, s: State, a: Action)
    requires Enabled(s, a)
    ensures var s' := Apply(policy, s, a);
            Waiters(s') - s'.missed == Waiters(s) - s.missed + match a
              case AcquireStart(_, _) => if s.count > 0 then 0 else 1
              case ReleaseStart(_, update) => 0 - Wake(policy, s.count, update)
              case _ => 0
  {
    WaitersDue(policy, s, a);
  }

  lemma LossesMove(policy: Policy, s: State, a: Action)
    requires Enabled(s, a)
    ensures Stranded(policy, Apply(policy, s, a)) == Stranded(policy, s) +
              if a.ReleaseStart? then Loss(policy, s.count, a.update) else 0
  {
    var s' := Apply(policy, s, a);
    if |s'.log| > |s.log| {
      SumAppend(s.log, s'.log[|s.log|], LossOf(policy));
    }
  }

  lemma StepKeepsWaiters(policy: Policy, desired: int, s: State, a: Action)
    requires Enabled(s, a) && Waiters(s) == Deficit(s.count) - Deficit(desired) + Stranded(policy, s) + s.missed
    ensures var s' := Apply(policy, s, a);
            Waiters(s') == Deficit(s'.count) - Deficit(desired) + Stranded(policy, s') + s'.missed
  {
    WaitersMove(policy, s, a);
    LossesMove(policy, s, a);
  }

  lemma StepKeepsPermits(policy: Policy, desired: int, s: State, a: Action)
    requires Enabled(s, a)
    requires Granted(policy, s) + Max(0, s.count) + Stranded(policy, s) == Max(0, desired) + ReleasedTotal(s)
    ensures var s' := Apply(policy, s, a);
            Granted(policy, s') + Max(0, s'.count) + Stranded(policy, s') == Max(0, desired) + ReleasedTotal(s')
  {
    var s' := Apply(policy, s, a);
    if s'.log != s.log {
      LogLedgers(policy, s, s', s'.log[|s.log|]);
    }
  }

  /** Grants and deliveries, as far as one step records them in the history. */
  lemma GrantsMove(policy: Policy, s: State, a: Action)
    requires Enabled(s, a)
    ensures var s' := Apply(policy, s, a);
            Granted(policy, s') - TryTotal(s') == Granted(policy, s) - TryTotal(s) + match a
              case AcquireStart(_, _) => if s.count > 0 then 1 else 0
              case ReleaseStart(_, update) => Wake(policy, s.count, update)
              case _ => 0
  {
    var s' := Apply(policy, s, a);
    if |s'.log| > |s.log| {
      var e := s'.log[|s.log|];
      SumAppend(s.log, e, GrantOf(policy));
      SumAppend(s.log, e, TryCount);
    }
  }

  /** What one step does to the deliveries made, under way and owed, early dequeues included. */
  lemma DeliveriesMove(policy: Policy, s: State, a: Action)
    requires Enabled(s, a)
    ensures var s' := Apply(policy, s, a);
            |s'.posted| + PostsInFlight(s') + Owed(s') + s'.missed
              == |s.posted| + PostsInFlight(s) + Owed(s) + s.missed + match a
                 case AcquireStart(_, _) => if s.count > 0 then 1 else 0
                 case ReleaseStart(_, update) => Wake(policy, s.count, update)
                 case _ => 0
  {
    var th' := Apply(policy, s, a).threads[a.t];
    SumUpdate(s.threads, a.t, th', PostsDue);
    SumUpdate(s.threads, a.t, th', DequeuesDue);
    match a
    case AcquireStart(_, _) =>
    case Post(_) =>
    case Enqueue(_) =>
    case TryLoad(_) =>
    case TryStep(_) =>
    case ReleaseStart(_, _) =>
    case Dequeue(_, _) =>
  }

  lemma StepKeepsDeliveries(policy: Policy, s: State, a: Action)
    requires Enabled(s, a)
    requires Granted(policy, s) == TryTotal(s) + |s.posted| + PostsInFlight(s) + Owed(s) + s.missed
    ensures var s' := Apply(policy, s, a);
            Granted(policy, s') == TryTotal(s') + |s'.posted| + PostsInFlight(s') + Owed(s') + s'.missed
  {
    DeliveriesMove(policy, s, a);
    GrantsMove(policy, s, a);
  }

  /** Every atomic step of every thread keeps the three balances. */
  lemma StepKeepsInv(policy: Policy, desired: int, s: State, a: Action)
    requires Inv(policy, desired, s) && Enabled(s, a)
    ensures Inv(policy, desired, Apply(policy, s, a))
  {
    StepKeepsWaiters(policy, desired, s, a);
    StepKeepsPermits(policy, desired, s, a);
    StepKeepsDeliveries(policy, s, a);
  }

  lemma StepConservesAll(policy: Policy, s: State, a: Action)
    requires Enabled(s, a) && AllConserved(s)
    ensures AllConserved(Apply(policy, s, a))
  {
    forall f ensures Conserved(Apply(policy, s, a), f) {
      assert Conserved(s, f);
      StepConserves(policy, s, a, f);
    }
  }

  lemma NextInv(policy: Policy, desired: int, states: seq<State>, actions: seq<Action>, k: nat)
    requires Stepped(policy, states, actions, k) && Inv(policy, desired, states[k]) && AllConserved(states[k])
    ensures Inv(policy, desired, states[k + 1]) && AllConserved(states[k + 1])
    ensures |states[k + 1].threads| == |states[k].threads|
  {
    StepKeepsInv(policy, desired, states[k], actions[k]);
    StepConservesAll(policy, states[k], actions[k]);
  }

  lemma {:induction false} RunInv(policy: Policy, desired: int, n: nat, states: seq<State>, actions: seq<Action>,
                                  k: nat)
    requires IsRun(policy, desired, n, states, actions) && k < |states|
    ensures Inv(policy, desired, states[k]) && AllConserved(states[k]) && |states[k].threads| == n
  {
    if k == 0 {
      InitInv(policy, desired, n);
    } else {
      RunInv(policy, desired, n, states, actions, k - 1);
      NextInv(policy, desired, states, actions, k - 1);
    }
  }
}

/** tcx::synchronized_execution_context: any number of runners drain one shared queue, to which
    their tasks and other threads keep posting. */
module SynchronizedContext {
  import opened Collections
  import opened ExecutionContext

  /** Where a runner is: outside `run`; at the head of its loop; holding a task it has popped;
      or inside a task that has posted its first `done` children. */
  datatype Place = Away | Looping | Popped | Running(done: nat)

  /** `slot` is the task whose callable the runner's `f` holds. */
  datatype Runner = Runner(place: Place, slot: Option<Task>, count: nat)

  /** Histories: `posted` in order, `fromOutside` those not posted by a task, `popped` with the
      runner that popped each. `returned` sums the counts `run` returned, and `uncounted` the tasks
      of calls that ended in an exception. */
  datatype State = State(queue: seq<Task>, runners: seq<Runner>,
                         posted: seq<Task>, fromOutside: seq<Task>, popped: seq<(nat, Task)>,
                         returned: nat, uncounted: nat)

  datatype Action =
    | PostOutside(f: Task)
    | Enter(r: nat)
    | TryPop(r: nat)
    | Call(r: nat)
    | PostChild(r: nat)
    | Finish(r: nat)
    | Escape(r: nat)

  function Init(n: nat): State {
    State([], seq(n, _ => Runner(Away, None, 0)), [], [], [], 0, 0)
  }

  /** The runner's task has posted all its children. */
  predicate AllPosted(x: Runner) {
    x.place.Running? && x.slot.Some? && x.place.done == |x.slot.value.children|
  }

  predicate Enabled(s: State, a: Action) {
    a.PostOutside? || (
      a.r < |s.runners| &&
      var x := s.runners[a.r];
      match a
      case Enter(_) => x.place.Away?
      case TryPop(_) => x.place.Looping?
      case Call(_) => x.place.Popped?
      case PostChild(_) => x.place.Running? && x.slot.Some? && x.place.done < |x.slot.value.children|
      case Finish(_) => AllPosted(x) && !x.slot.value.throws
      case Escape(_) => AllPosted(x) && x.slot.value.throws)
  }

  function Push(s: State, f: Task): State { s.(queue := s.queue + [f], posted := s.posted + [f]) }

  function Apply(s: State, a: Action): State
    requires Enabled(s, a)
  {
    if a.PostOutside? then Push(s, a.f).(fromOutside := s.fromOutside + [a.f])
    else
      var r, x := a.r, s.runners[a.r];
      match a
      case Enter(_) => s.(runners := s.runners[r := Runner(Looping, None, 0)])
      case TryPop(_) =>
        if s.queue == [] then
          s.(runners := s.runners[r := Runner(Away, None, 0)], returned := s.returned + x.count)
        else
          s.(queue := s.queue[1..], popped := s.popped + [(r, s.queue[0])],
             runners := s.runners[r := x.(place := Popped, slot := Some(s.queue[0]))])
      case Call(_) => s.(runners := s.runners[r := x.(place := Running(0))])
      case PostChild(_) =>
        Push(s, x.slot.value.children[x.place.done])
          .(runners := s.runners[r := x.(place := Running(x.place.done + 1))])
      case Finish(_) => s.(runners := s.runners[r := x.(place := Looping, count := x.count + 1)])
      case Escape(_) => s.(runners := s.runners[r := Runner(Away, None, 0)], uncounted := s.uncounted + x.count + 1)
  }

  ghost predicate IsRun(n: nat, states: seq<State>, actions: seq<Action>) {
    && |states| == |actions| + 1 && states[0] == Init(n)
    && forall i :: 0 <= i < |actions| ==>
         Enabled(states[i], actions[i]) && states[i + 1] == Apply(states[i], actions[i])
  }

  // ----- Ledgers

  function Counted(x: Runner): int { x.count }

  /** Popped but not yet counted. */
  function InHand(x: Runner): int { if x.place.Popped? || x.place.Running? then 1 else 0 }

  /** What a runner's task has still to post. */
  function ToPost(x: Runner): seq<Task> {
    if x.slot.None? then []
    else match x.place
      case Popped => x.slot.value.children
      case Running(done) => if done <= |x.slot.value.children| then x.slot.value.children[done..] else []
      case _ => []
  }

  /** How often task `id` will come of that. */
  function Unposted(id: nat): Runner -> int { (x: Runner) => Occurrences(ToPost(x), id) }

  /** How often task `id` was popped. */
  function TimesPopped(s: State, id: nat): int { multiset(Ids(Tasks(s.popped)))[id] }

  predicate Sound(x: Runner) {
    && (x.place.Popped? || x.place.Running? ==> x.slot.Some?)
    && (x.place.Running? ==> x.place.done <= |x.slot.value.children|)
    && (x.place.Away? ==> x.slot == None && x.count == 0)
  }

  function Tasks(popped: seq<(nat, Task)>): seq<Task> {
    seq(|popped|, i requires 0 <= i < |popped| => popped[i].1)
  }

  ghost predicate AllSound(s: State) { forall r :: 0 <= r < |s.runners| ==> Sound(s.runners[r]) }

  ghost predicate InOrder(s: State) { s.posted == Tasks(s.popped) + s.queue }

  ghost predicate Balanced(s: State) {
    |s.popped| == s.returned + s.uncounted + Sum(s.runners, Counted) + Sum(s.runners, InHand)
  }

  /** Every task of the forests posted from outside has been popped, is in a queued tree, or is still
      to be posted by a task that runs. */
  ghost predicate WorkBalanced(s: State, id: nat) {
    Occurrences(s.fromOutside, id) == TimesPopped(s, id) + Occurrences(s.queue, id) + Sum(s.runners, Unposted(id))
  }

  ghost predicate Inv(s: State) {
    && AllSound(s) && InOrder(s) && Balanced(s) && (forall id :: WorkBalanced(s, id))
  }

  lemma InitInv(n: nat)
    ensures Inv(Init(n))
  {
    var s := Init(n);
    SumNonNegative(s.runners, Counted);
    SumNonNegative(s.runners, InHand);
    forall id ensures WorkBalanced(s, id) {
      SumNonNegative(s.runners, Unposted(id));
    }
  }

  lemma StepKeepsSound(s: State, a: Action)
    requires AllSound(s) && Enabled(s, a)
    ensures AllSound(Apply(s, a))
  {
    if !a.PostOutside? {
      var x, x' := s.runners[a.r], Apply(s, a).runners[a.r];
      assert Sound(x) && Sound(x');
      assert Apply(s, a).runners == s.runners[a.r := x'];
    }
  }

  lemma StepKeepsOrder(s: State, a: Action)
    requires InOrder(s) && Enabled(s, a)
    ensures InOrder(Apply(s, a))
  {
    var s' := Apply(s, a);
    if a.TryPop? && s.queue != [] {
      assert Tasks(s'.popped) == Tasks(s.popped) + [s.queue[0]];
      assert s.queue == [s.queue[0]] + s.queue[1..];
    }
  }

  lemma StepKeepsBalance(s: State, a: Action)
    requires Balanced(s) && Enabled(s, a) && (!a.PostOutside? ==> Sound(s.runners[a.r]))
    ensures Balanced(Apply(s, a))
  {
    if !a.PostOutside? {
      var s' := Apply(s, a);
      SumUpdate(s.runners, a.r, s'.runners[a.r], Counted);
      SumUpdate(s.runners, a.r, s'.runners[a.r], InHand);
    }
  }

  lemma PopMovesWork(s: State, r: nat, id: nat)
    requires Enabled(s, TryPop(r)) && s.queue != [] && Sound(s.runners[r])
    ensures var s', f := Apply(s, TryPop(r)), s.queue[0];
            && TimesPopped(s', id) == TimesPopped(s, id) + (if f.id == id then 1 else 0)
            && Unposted(id)(s'.runners[r]) == Unposted(id)(s.runners[r]) + Occurrences(f.children, id)
  {
    var s', f := Apply(s, TryPop(r)), s.queue[0];
    assert Tasks(s'.popped) == Tasks(s.popped) + [f];
    AppendIds(Tasks(s.popped), [f]);
    CountAppend(Ids(Tasks(s.popped)), [f.id], id);
  }

  lemma PostMovesWork(s: State, r: nat, id: nat)
    requires Enabled(s, PostChild(r)) && Sound(s.runners[r])
    ensures var s' := Apply(s, PostChild(r));
            && s'.popped == s.popped
            && Occurrences(s'.queue, id) + Unposted(id)(s'.runners[r])
                 == Occurrences(s.queue, id) + Unposted(id)(s.runners[r])
  {
    var todo := ToPost(s.runners[r]);
    assert ToPost(Apply(s, PostChild(r)).runners[r]) == todo[1..];
    AppendOccurrences(s.queue, [todo[0]], id);
  }

  lemma OthersMoveNoWork(s: State, a: Action)
    requires Enabled(s, a) && !a.PostOutside? && !a.PostChild? && (a.TryPop? ==> s.queue == []) && Sound(s.runners[a.r])
    ensures var s' := Apply(s, a);
            s'.popped == s.popped && s'.queue == s.queue && ToPost(s'.runners[a.r]) == ToPost(s.runners[a.r])
  {
    if a.Call? {
      assert s.runners[a.r].slot.value.children[0..] == s.runners[a.r].slot.value.children;
    }
  }

  lemma StepKeepsWork(s: State, a: Action, id: nat)
    requires WorkBalanced(s, id) && Enabled(s, a) && (!a.PostOutside? ==> Sound(s.runners[a.r]))
    ensures WorkBalanced(Apply(s, a), id)
  {
    if a.PostOutside? {
      AppendOccurrences(s.queue, [a.f], id);
      AppendOccurrences(s.fromOutside, [a.f], id);
    } else {
      SumUpdate(s.runners, a.r, Apply(s, a).runners[a.r], Unposted(id));
      if a.PostChild? {
        PostMovesWork(s, a.r, id);
      } else if a.TryPop? && s.queue != [] {
        PopMovesWork(s, a.r, id);
      } else {
        OthersMoveNoWork(s, a);
      }
    }
  }

  lemma StepKeepsInv(s: State, a: Action)
    requires Inv(s) && Enabled(s, a)
    ensures Inv(Apply(s, a))
  {
    StepKeepsSound(s, a);
    StepKeepsOrder(s, a);
    StepKeepsBalance(s, a);
    forall id ensures WorkBalanced(Apply(s, a), id) {
      assert WorkBalanced(s, id);
      StepKeepsWork(s, a, id);
    }
  }

  lemma {:induction false} RunInv(n: nat, states: seq<State>, actions: seq<Action>, k: nat)
    requires IsRun(n, states, actions) && k < |states|
    ensures Inv(states[k]) && |states[k].runners| == n
  {
    if k == 0 {
      InitInv(n);
    } else {
      var s, a := states[k - 1], actions[k - 1];
      RunInv(n, states, actions, k - 1);
      assert Enabled(s, a) && states[k] == Apply(s, a);
      StepKeepsInv(s, a);
      assert |Apply(s, a).runners| == |s.runners|;
    }
  }

  // ----- What follows

  /** Each posted task is popped at most once, by one runner, in the order of posting: the
      posts are the pops, in order, followed by what is queued. */
  lemma PoppedOnceInOrder(n: nat, states: seq<State>, actions: seq<Action>, k: nat, i: nat)
    requires IsRun(n, states, actions) && k < |states| && i < |states[k].posted|
    ensures var s := states[k];
            if i < |s.popped| then s.posted[i] == s.popped[i].1
            else i - |s.popped| < |s.queue| && s.posted[i] == s.queue[i - |s.popped|]
    ensures |states[k].posted| == |states[k].popped| + |states[k].queue|
  {
    RunInv(n, states, actions, k);
  }

  /** Every posted task is in exactly one place: queued, in a runner's hands, in a running
      count, in a returned count, or lost with a call that threw. */
  lemma TasksAccounted(n: nat, states: seq<State>, actions: seq<Action>, k: nat)
    requires IsRun(n, states, actions) && k < |states|
    ensures var s := states[k];
            |s.posted| == |s.queue| + Sum(s.runners, InHand) + Sum(s.runners, Counted) + s.returned + s.uncounted
  {
    RunInv(n, states, actions, k);
  }

  /** Once nothing is queued and every runner is away, exactly the tasks of the forests posted
      from outside have run, each as often as it is there, whoever ran it and in whatever order; and
      the returned counts and what exceptions left uncounted add up to them. */
  lemma EverySpawnedTaskRan(n: nat, states: seq<State>, actions: seq<Action>, k: nat)
    requires IsRun(n, states, actions) && k < |states|
    requires states[k].queue == [] && forall r :: 0 <= r < |states[k].runners| ==> states[k].runners[r].place.Away?
    ensures var s := states[k];
            && multiset(Ids(Tasks(s.popped))) == multiset(Ids(BreadthFirst(s.fromOutside)))
            && (forall id :: TimesPopped(s, id) == Occurrences(s.fromOutside, id))
            && s.returned + s.uncounted == Size(s.fromOutside)
  {
    var s := states[k];
    RunInv(n, states, actions, k);
    SumNonNegative(s.runners, Counted);
    SumNonNegative(s.runners, InHand);
    forall id
      ensures TimesPopped(s, id) == Occurrences(s.fromOutside, id) == multiset(Ids(BreadthFirst(s.fromOutside)))[id]
    {
      assert WorkBalanced(s, id);
      SumNonNegative(s.runners, Unposted(id));
      BreadthFirstIsWhole(s.fromOutside, id);
    }
    BreadthFirstCounts(s.fromOutside);
    SizeByLevel(Tasks(s.popped));
    SizeByLevel(BreadthFirst(s.fromOutside));
    SameLength(Ids(Tasks(s.popped)), Ids(BreadthFirst(s.fromOutside)));
  }

  lemma SameLength(a: seq<nat>, b: seq<nat>)
    requires forall id :: multiset(a)[id] == multiset(b)[id]
    ensures multiset(a) == multiset(b) && |a| == |b|
  {
    assert multiset(a) == multiset(b);
    assert |multiset(a)| == |a| && |multiset(b)| == |b|;
  }

  // ----- How long it takes

  /** The steps a runner will still make of its own task and of the look that ends its call, and
      those that tasks it has yet to post will take: popped, called, posted and finished. */
  function Toil(x: Runner): int {
    4 * Size(ToPost(x)) + match x.place case Away => 0 case Looping => 1 case Popped => 3 case Running(_) => 2
  }

  ghost function Ahead(s: State): int { 4 * Size(s.queue) - |s.queue| + Sum(s.runners, Toil) }

  lemma AheadNonNegative(s: State)
    ensures Ahead(s) >= 0
  {
    SizeByLevel(s.queue);
    SumNonNegative(s.runners, Toil);
  }

  function Entered(a: Action): int { if a.Enter? then 1 else 0 }
  function Escaped(a: Action): int { if a.Escape? then 1 else 0 }

  /** The change in what is ahead, when one runner and the queue change. */
  lemma AheadMoves(s: State, s': State, r: nat)
    requires r < |s.runners| == |s'.runners| && s'.runners == s.runners[r := s'.runners[r]]
    ensures Ahead(s') - Ahead(s) == 4 * (Size(s'.queue) - Size(s.queue)) - (|s'.queue| - |s.queue|)
                                    + Toil(s'.runners[r]) - Toil(s.runners[r])
  {
    SumUpdate(s.runners, r, s'.runners[r], Toil);
  }

  lemma PostIsOneOfThem(s: State, r: nat)
    requires Enabled(s, PostChild(r)) && Sound(s.runners[r])
    ensures Ahead(Apply(s, PostChild(r))) + 1 == Ahead(s)
  {
    var s', todo := Apply(s, PostChild(r)), ToPost(s.runners[r]);
    AheadMoves(s, s', r);
    AppendSize(s.queue, [todo[0]]);
    assert ToPost(s'.runners[r]) == todo[1..];
  }

  lemma PopIsOneOfThem(s: State, r: nat)
    requires Enabled(s, TryPop(r)) && s.queue != [] && Sound(s.runners[r])
    ensures Ahead(Apply(s, TryPop(r))) + 1 == Ahead(s)
  {
    AheadMoves(s, Apply(s, TryPop(r)), r);
  }

  lemma OtherIsOneOfThem(s: State, a: Action)
    requires Enabled(s, a) && !a.PostOutside? && !a.PostChild? && (a.TryPop? ==> s.queue == []) && Sound(s.runners[a.r])
    ensures Ahead(Apply(s, a)) + 1 + Escaped(a) == Ahead(s) + 2 * Entered(a)
  {
    AheadMoves(s, Apply(s, a), a.r);
    OthersMoveNoWork(s, a);
  }

  /** Every step is one of those there are ahead, except entering, which adds two, an exception, which
      saves the look at the queue, and posting from outside, which adds four for every new task. */
  lemma StepIsOneOfThem(s: State, a: Action)
    requires Enabled(s, a) && (!a.PostOutside? ==> Sound(s.runners[a.r]))
    ensures var s' := Apply(s, a);
            Ahead(s') + 1 + Escaped(a) == Ahead(s) + 2 * Entered(a) + 4 * (Size(s'.fromOutside) - Size(s.fromOutside))
  {
    match a
    case PostOutside(f) =>
      AppendSize(s.queue, [f]);
      AppendSize(s.fromOutside, [f]);
    case PostChild(r) => PostIsOneOfThem(s, r);
    case TryPop(r) => if s.queue != [] { PopIsOneOfThem(s, r); } else { OtherIsOneOfThem(s, a); }
    case _ => OtherIsOneOfThem(s, a);
  }

  /** However the steps are scheduled, how many there have been is settled by the tasks posted, the
      calls of `run`, the exceptions and what is still ahead. */
  lemma {:induction false} StepsExactly(n: nat, states: seq<State>, actions: seq<Action>, k: nat)
    requires IsRun(n, states, actions) && k < |states|
    ensures Ahead(states[k]) >= 0
    ensures k + Ahead(states[k]) + Sum(actions[..k], Escaped)
              == 4 * Size(states[k].fromOutside) + 2 * Sum(actions[..k], Entered)
  {
    AheadNonNegative(states[k]);
    if k == 0 {
      SumNonNegative(states[0].runners, Toil);
    } else {
      var s, a := states[k - 1], actions[k - 1];
      StepsExactly(n, states, actions, k - 1);
      RunInv(n, states, actions, k - 1);
      assert Enabled(s, a) && states[k] == Apply(s, a);
      StepIsOneOfThem(s, a);
      TallyNext(actions, k - 1);
    }
  }

  lemma TallyNext(actions: seq<Action>, k: nat)
    requires k < |actions|
    ensures Sum(actions[..k + 1], Escaped) == Sum(actions[..k], Escaped) + Escaped(actions[k])
    ensures Sum(actions[..k + 1], Entered) == Sum(actions[..k], Entered) + Entered(actions[k])
  {
    assert actions[..k + 1] == actions[..k] + [actions[k]];
    SumAppend(actions[..k], actions[k], Escaped);
    SumAppend(actions[..k], actions[k], Entered);
  }

  /** Once nothing is posted from outside and nobody calls `run` again, at most the steps ahead are
      left: every call of `run` ends. */
  lemma {:induction false} CallsEnd(n: nat, states: seq<State>, actions: seq<Action>, j: nat, k: nat)
    requires IsRun(n, states, actions) && j <= k < |states|
    requires forall m :: j <= m < k ==> !actions[m].PostOutside? && !actions[m].Enter?
    ensures 0 <= Ahead(states[k]) <= Ahead(states[j]) - (k - j)
  {
    AheadNonNegative(states[k]);
    if j < k {
      var s, a := states[k - 1], actions[k - 1];
      CallsEnd(n, states, actions, j, k - 1);
      RunInv(n, states, actions, k - 1);
      assert Enabled(s, a) && states[k] == Apply(s, a);
      StepIsOneOfThem(s, a);
    }
  }
}

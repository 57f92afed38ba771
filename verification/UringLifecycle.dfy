/** Every interleaving of submissions, kernel answers, reaping and completion keeps each
    completion object alive exactly as long as something still names it. */
module UringLifecycle {
  import opened Collections
  import opened UringProtocol

  /** How the entries waiting to be handled change. */
  lemma PendingMoves(policy: Policy, entries: nat, s: State, a: Action)
    requires Enabled(entries, s, a)
    ensures var s' := Apply(policy, s, a);
            Pending(s') ==
              match a
              case PostCqe(id, more, res) => Pending(s) + [Cqe(id, more, res)]
              case Begin(i) => Erased(Pending(s), i)
              case _ => Pending(s)
  {
    var s' := Apply(policy, s, a);
    match a
    case Reap(capacity) =>
      var n := Min(capacity, |s.cq|);
      assert s.cq == s.cq[..n] + s.cq[n..];
      Associate(s.reaped, s.cq[..n], s.cq[n..]);
    case Begin(i) => EraseInFirst(s.reaped, s.cq, i);
    case PostCqe(id, more, res) => Associate(s.reaped, s.cq, [Cqe(id, more, res)]);
    case _ =>
  }

  lemma EraseInFirst(a: seq<Cqe>, b: seq<Cqe>, i: nat)
    requires i < |a|
    ensures Erased(a, i) + b == Erased(a + b, i)
  {}

  lemma CountsNonNegative(s: State, id: Id)
    ensures Sum(s.sq, Is(id)) >= 0 && Finals(Pending(s), id) >= 0 && Finals(s.running, id) >= 0
    ensures forall i :: 0 <= i < |s.sq| && s.sq[i] == id ==> Sum(s.sq, Is(id)) >= 1
    ensures forall i :: 0 <= i < |Pending(s)| && Pending(s)[i].id == id && !Pending(s)[i].more ==>
              Finals(Pending(s), id) >= 1
    ensures forall i :: 0 <= i < |s.running| && s.running[i].id == id && !s.running[i].more ==>
              Finals(s.running, id) >= 1
  {
    SumNonNegative(s.sq, Is(id));
    forall i | 0 <= i < |s.sq| && s.sq[i] == id ensures Sum(s.sq, Is(id)) >= 1 {
      assert Is(id)(s.sq[i]) == 1;
    }
    SumNonNegative(Pending(s), Final(id));
    forall i | 0 <= i < |Pending(s)| && Pending(s)[i].id == id && !Pending(s)[i].more
      ensures Finals(Pending(s), id) >= 1
    {
      assert Final(id)(Pending(s)[i]) == 1;
    }
    SumNonNegative(s.running, Final(id));
    forall i | 0 <= i < |s.running| && s.running[i].id == id && !s.running[i].more ensures Finals(s.running, id) >= 1 {
      assert Final(id)(s.running[i]) == 1;
    }
  }

  lemma BeginAccounts(policy: Policy, entries: nat, s: State, i: nat, id: Id)
    requires Enabled(entries, s, Begin(i)) && Accounted(s, id)
    ensures Accounted(Apply(policy, s, Begin(i)), id)
  {
    PendingMoves(policy, entries, s, Begin(i));
    assert Pending(s)[i] == s.reaped[i];
    SumErase(Pending(s), i, Final(id));
    SumAppend(s.running, s.reaped[i], Final(id));
  }

  lemma EndAccounts(policy: Policy, entries: nat, s: State, j: nat, throws: bool, id: Id)
    requires Enabled(entries, s, End(j, throws)) && Accounted(s, id)
    ensures Accounted(Apply(policy, s, End(j, throws)), id)
  {
    PendingMoves(policy, entries, s, End(j, throws));
    CountsNonNegative(s, id);
    SumErase(s.running, j, Final(id));
  }

  lemma PostAccounts(policy: Policy, entries: nat, s: State, c: Cqe, id: Id)
    requires Enabled(entries, s, PostCqe(c.id, c.more, c.res)) && Accounted(s, id)
    ensures Accounted(Apply(policy, s, PostCqe(c.id, c.more, c.res)), id)
  {
    PendingMoves(policy, entries, s, PostCqe(c.id, c.more, c.res));
    SumAppend(Pending(s), c, Final(id));
  }

  lemma StepAccounts(policy: Policy, entries: nat, s: State, a: Action, id: Id)
    requires Enabled(entries, s, a) && Accounted(s, id)
    ensures Accounted(Apply(policy, s, a), id)
  {
    match a
    case PostCqe(x, more, res) => PostAccounts(policy, entries, s, Cqe(x, more, res), id);
    case Begin(i) => BeginAccounts(policy, entries, s, i, id);
    case End(j, throws) => EndAccounts(policy, entries, s, j, throws, id);
    case _ => QueueAccounts(policy, entries, s, a, id);
  }

  lemma QueueAccounts(policy: Policy, entries: nat, s: State, a: Action, id: Id)
    requires Enabled(entries, s, a) && Accounted(s, id) && (a.SubmitOk? || a.SubmitFailed? || a.Consume? || a.Reap?)
    ensures Accounted(Apply(policy, s, a), id)
  {
    PendingMoves(policy, entries, s, a);
    CountsNonNegative(s, id);
    match a
    case SubmitOk(x) => SumAppend(s.sq, x, Is(id));
    case SubmitFailed(_) =>
    case Consume => assert s.sq[0] == id ==> Sum(s.sq, Is(id)) >= 1;
    case Reap(_) =>
  }

  /** What a step does to the last entry still to come. */
  lemma StaysOpen(policy: Policy, entries: nat, s: State, a: Action, id: Id)
    requires Enabled(entries, s, a) && Open(s, id)
    requires a.Begin? ==> s.reaped[a.i].more || s.reaped[a.i].id != id
    ensures Open(Apply(policy, s, a), id)
  {
    var s' := Apply(policy, s, a);
    PendingMoves(policy, entries, s, a);
    CountsNonNegative(s, id);
    match a
    case PostCqe(x, more, res) => SumAppend(Pending(s), Cqe(x, more, res), Final(id));
    case Begin(i) =>
      assert Pending(s)[i] == s.reaped[i];
      SumErase(Pending(s), i, Final(id));
    case _ =>
  }

  /** An entry being handled is the oldest of its operation, so if it is the last it is the only one. */
  lemma LastIsAlone(entries: nat, s: State, i: nat, k: nat)
    requires Ordered(s) && Enabled(entries, s, Begin(i)) && k < |Pending(s)| && k != i
    requires Pending(s)[k].id == s.reaped[i].id
    ensures s.reaped[i].more && i < k
  {
    assert Pending(s)[i] == s.reaped[i];
    assert forall m :: 0 <= m < i ==> s.reaped[..i][m] == Pending(s)[m];
  }

  lemma StepKeepsOpen(policy: Policy, entries: nat, s: State, a: Action, k: nat)
    requires Enabled(entries, s, a) && Ordered(s)
    requires k < |Pending(Apply(policy, s, a))| && Pending(Apply(policy, s, a))[k].more
    ensures Open(Apply(policy, s, a), Pending(Apply(policy, s, a))[k].id)
  {
    PendingMoves(policy, entries, s, a);
    var c := Pending(Apply(policy, s, a))[k];
    if a.Begin? {
      var k0 := if k < a.i then k else k + 1;
      assert c == Pending(s)[k0];
      if c.id == s.reaped[a.i].id {
        LastIsAlone(entries, s, a.i, k0);
      }
      StaysOpen(policy, entries, s, a, c.id);
    } else if k < |Pending(s)| {
      assert c == Pending(s)[k];
      StaysOpen(policy, entries, s, a, c.id);
    }
  }

  lemma StepKeepsLast(policy: Policy, entries: nat, s: State, a: Action, j: nat, k: nat)
    requires Enabled(entries, s, a) && Ordered(s) && (a.PostCqe? ==> Accounted(s, a.id))
    requires j < k < |Pending(Apply(policy, s, a))|
    requires Pending(Apply(policy, s, a))[j].id == Pending(Apply(policy, s, a))[k].id
    ensures Pending(Apply(policy, s, a))[j].more
  {
    PendingMoves(policy, entries, s, a);
    if a.PostCqe? {
      PostKeepsLast(s, Pending(Apply(policy, s, a)), Cqe(a.id, a.more, a.res), j, k);
    } else if a.Begin? {
      EraseKeepsLast(s, Pending(Apply(policy, s, a)), a.i, j, k);
    }
  }

  lemma PostKeepsLast(s: State, q: seq<Cqe>, c: Cqe, j: nat, k: nat)
    requires Ordered(s) && Accounted(s, c.id) && c.id in s.inflight && q == Pending(s) + [c]
    requires j < k < |q| && q[j].id == q[k].id
    ensures q[j].more
  {
    CountsNonNegative(s, c.id);
    assert q[j] == Pending(s)[j];
    if k < |Pending(s)| {
      assert q[k] == Pending(s)[k];
    }
  }

  lemma EraseKeepsLast(s: State, q: seq<Cqe>, i: nat, j: nat, k: nat)
    requires Ordered(s) && i < |Pending(s)| && q == Erased(Pending(s), i)
    requires j < k < |q| && q[j].id == q[k].id
    ensures q[j].more
  {
    var j0, k0 := if j < i then j else j + 1, if k < i then k else k + 1;
    assert q[j] == Pending(s)[j0] && q[k] == Pending(s)[k0];
  }

  lemma StepOrders(policy: Policy, entries: nat, s: State, a: Action)
    requires Enabled(entries, s, a) && Ordered(s) && (a.PostCqe? ==> Accounted(s, a.id))
    ensures Ordered(Apply(policy, s, a))
  {
    var s' := Apply(policy, s, a);
    forall k | 0 <= k < |Pending(s')| && Pending(s')[k].more ensures Open(s', Pending(s')[k].id) {
      StepKeepsOpen(policy, entries, s, a, k);
    }
    forall j, k | 0 <= j < k < |Pending(s')| && Pending(s')[j].id == Pending(s')[k].id ensures Pending(s')[j].more {
      StepKeepsLast(policy, entries, s, a, j, k);
    }
  }

  lemma StepKeepsCalls(policy: Policy, entries: nat, s: State, a: Action)
    requires Enabled(entries, s, a) && Ordered(s) && Calls(s)
    ensures Calls(Apply(policy, s, a))
  {
    var s' := Apply(policy, s, a);
    if a.End? {
      assert forall k :: 0 <= k < |s'.running| ==> s'.running[k] == s.running[if k < a.j then k else k + 1];
    }
    forall k | 0 <= k < |s'.running| && s'.running[k].more ensures Open(s', s'.running[k].id) {
      if a.Begin? && k == |s.running| {
        assert Pending(s)[a.i] == s.reaped[a.i];
        StaysOpen(policy, entries, s, a, s.reaped[a.i].id);
      } else {
        var k0 := if a.End? && k >= a.j then k + 1 else k;
        assert s'.running[k] == s.running[k0];
        StaysOpen(policy, entries, s, a, s.running[k0].id);
      }
    }
    forall j, k | 0 <= j < k < |s'.running| ensures s'.running[j].id != s'.running[k].id {
      if a.Begin? && k == |s.running| {
        assert s.running[j].id != s.reaped[a.i].id;
      }
    }
  }

  ghost predicate Named(s: State, id: Id) {
    Mentions(Pending(s), id) || Mentions(s.running, id) || id in s.inflight || id in s.sq
  }

  /** Whatever names a completion names a live one. */
  lemma NamedIsLive(s: State, id: Id)
    requires Accounted(s, id) && Ordered(s) && Calls(s)
    ensures Named(s, id) ==> id in s.live
  {
    CountsNonNegative(s, id);
    if Mentions(Pending(s), id) {
      var i :| 0 <= i < |Pending(s)| && Pending(s)[i].id == id;
      assert Pending(s)[i].more ==> Open(s, id);
    }
    if Mentions(s.running, id) {
      var i :| 0 <= i < |s.running| && s.running[i].id == id;
      assert s.running[i].more ==> Open(s, id);
    }
  }

  lemma StepMonitored(policy: Policy, entries: nat, s: State, a: Action)
    requires Enabled(entries, s, a) && Inv(s)
    ensures Replay(Apply(policy, s, a).log) == Some(Apply(policy, s, a).live)
  {
    match a
    case SubmitOk(id) => ReplayNext(s.log, Alloc(id));
    case SubmitFailed(id) => ComesAndGoes(s.log, s.live, id);
    case Begin(i) => UsesLive(s, s.reaped[i].id, i);
    case End(j, throws) => FreesLive(s, s.running[j].id, j);
    case _ =>
  }

  lemma ComesAndGoes(log: seq<Event>, live: set<Id>, id: Id)
    requires Replay(log) == Some(live) && id !in live
    ensures Replay(log + [Alloc(id), Free(id)]) == Some(live)
  {
    ReplayNext(log, Alloc(id));
    ReplayNext(log + [Alloc(id)], Free(id));
    assert log + [Alloc(id), Free(id)] == log + [Alloc(id)] + [Free(id)];
    assert live + {id} - {id} == live;
  }

  lemma UsesLive(s: State, id: Id, i: nat)
    requires Inv(s) && i < |s.reaped| && s.reaped[i].id == id
    ensures Replay(s.log + [Use(id)]) == Some(s.live)
  {
    assert Pending(s)[i].id == id && Accounted(s, id);
    NamedIsLive(s, id);
    ReplayNext(s.log, Use(id));
  }

  lemma FreesLive(s: State, id: Id, j: nat)
    requires Inv(s) && j < |s.running| && s.running[j].id == id
    ensures Replay(s.log + [Free(id)]) == Some(s.live - {id})
  {
    assert Accounted(s, id);
    NamedIsLive(s, id);
    ReplayNext(s.log, Free(id));
  }

  lemma StepDelivers(policy: Policy, entries: nat, s: State, a: Action)
    requires Enabled(entries, s, a) && s.posted == s.delivered + s.cq
    ensures Apply(policy, s, a).posted == Apply(policy, s, a).delivered + Apply(policy, s, a).cq
  {
    if a.Reap? {
      var n := Min(a.capacity, |s.cq|);
      assert s.cq == s.cq[..n] + s.cq[n..];
    }
  }

  lemma StepKeepsInv(policy: Policy, entries: nat, s: State, a: Action)
    requires Enabled(entries, s, a) && Inv(s)
    ensures Inv(Apply(policy, s, a))
  {
    forall id ensures Accounted(Apply(policy, s, a), id) {
      assert Accounted(s, id);
      StepAccounts(policy, entries, s, a, id);
    }
    if a.PostCqe? {
      assert Accounted(s, a.id);
    }
    StepOrders(policy, entries, s, a);
    StepKeepsCalls(policy, entries, s, a);
    StepMonitored(policy, entries, s, a);
    StepDelivers(policy, entries, s, a);
  }

  lemma StartInv()
    ensures Inv(START)
  {
    assert Pending(START) == [];
    forall id ensures Accounted(START, id) {}
  }

  lemma NextInv(policy: Policy, entries: nat, s: State, a: Action, s': State)
    requires Inv(s) && Enabled(entries, s, a) && s' == Apply(policy, s, a)
    ensures Inv(s')
  {
    StepKeepsInv(policy, entries, s, a);
  }

  lemma {:induction false} RunInv(policy: Policy, entries: nat, states: seq<State>, actions: seq<Action>, k: nat)
    requires IsRun(policy, entries, states, actions) && k < |states|
    ensures Inv(states[k])
  {
    if k == 0 {
      StartInv();
    } else {
      RunInv(policy, entries, states, actions, k - 1);
      assert Stepped(policy, entries, states, actions, k - 1);
      NextInv(policy, entries, states[k - 1], actions[k - 1], states[k]);
    }
  }

  // ----- What follows, over every run

  /** No use after free, no double free: the monitor accepts the whole history; and nothing that
      the queues, the kernel or a call in progress names has been freed. */
  lemma MemorySafe(policy: Policy, entries: nat, states: seq<State>, actions: seq<Action>, k: nat, id: Id)
    requires IsRun(policy, entries, states, actions) && k < |states|
    ensures Replay(states[k].log) == Some(states[k].live)
    ensures Named(states[k], id) ==> id in states[k].live
  {
    RunInv(policy, entries, states, actions, k);
    assert Accounted(states[k], id);
    NamedIsLive(states[k], id);
  }

  /** A live completion is in exactly one place, and its operation is there once; a dead one is
      nowhere. */
  lemma ExactlyOnePlace(policy: Policy, entries: nat, states: seq<State>, actions: seq<Action>, k: nat, id: Id)
    requires IsRun(policy, entries, states, actions) && k < |states|
    ensures var s := states[k];
            && 0 <= Sum(s.sq, Is(id)) <= 1 && 0 <= Finals(Pending(s), id) <= 1 && 0 <= Finals(s.running, id) <= 1
            && Sum(s.sq, Is(id)) + Bit(id in s.inflight) + Finals(Pending(s), id) + Finals(s.running, id)
               + Bit(id in s.leaked) == Bit(id in s.live)
  {
    RunInv(policy, entries, states, actions, k);
    assert Accounted(states[k], id);
    CountsNonNegative(states[k], id);
  }

  /** What is not live is not in the submission queue. */
  lemma DeadIsNotQueued(s: State, id: Id)
    requires Accounted(s, id) && id !in s.live
    ensures id !in s.sq
  {
    CountsNonNegative(s, id);
  }

  function Allocates(id: Id): Event -> int { (e: Event) => if e == Alloc(id) then 1 else 0 }
  function Frees(id: Id): Event -> int { (e: Event) => if e == Free(id) then 1 else 0 }

  lemma {:induction false} FreesMatchAllocations(log: seq<Event>, id: Id)
    requires Replay(log).Some?
    ensures Sum(log, Allocates(id)) == Sum(log, Frees(id)) + Bit(id in Replay(log).value)
  {
    if log != [] {
      var n := |log| - 1;
      assert log == log[..n] + [log[n]];
      FreesMatchAllocations(log[..n], id);
      SumAppend(log[..n], log[n], Allocates(id));
      SumAppend(log[..n], log[n], Frees(id));
    }
  }

  /** Freed exactly once: of the objects ever allocated at an address, all have been freed but the
      one, if any, that is there now. */
  lemma FreedOnce(policy: Policy, entries: nat, states: seq<State>, actions: seq<Action>, k: nat, id: Id)
    requires IsRun(policy, entries, states, actions) && k < |states|
    ensures var s := states[k];
            Sum(s.log, Frees(id)) == Sum(s.log, Allocates(id)) - Bit(id in s.live)
  {
    RunInv(policy, entries, states, actions, k);
    FreesMatchAllocations(states[k].log, id);
  }

  /** The call for a last entry that ends without deleting its object. */
  ghost predicate Leaks(policy: Policy, s: State, a: Action) {
    a.End? && a.j < |s.running| && !s.running[a.j].more && !Deletes(policy, s.running[a.j], a.throws)
  }

  lemma {:induction false} LeakedIff(policy: Policy, entries: nat, states: seq<State>, actions: seq<Action>, k: nat)
    requires IsRun(policy, entries, states, actions) && k < |states|
    ensures states[k].leaked == {} <==> forall m :: 0 <= m < k ==> !Leaks(policy, states[m], actions[m])
  {
    if k > 0 {
      LeakedIff(policy, entries, states, actions, k - 1);
      assert Stepped(policy, entries, states, actions, k - 1);
      assert states[k] == Apply(policy, states[k - 1], actions[k - 1]);
      if Leaks(policy, states[k - 1], actions[k - 1]) {
        assert states[k - 1].running[actions[k - 1].j].id in states[k].leaked;
      } else {
        assert states[k].leaked == states[k - 1].leaked;
      }
    }
  }

  ghost predicate Idle(s: State) {
    s.sq == [] && s.inflight == {} && s.cq == [] && s.reaped == [] && s.running == []
  }

  lemma IdleHoldsOnlyLeaks(policy: Policy, entries: nat, states: seq<State>, actions: seq<Action>, k: nat)
    requires IsRun(policy, entries, states, actions) && k < |states| && Idle(states[k])
    ensures states[k].live == states[k].leaked
  {
    RunInv(policy, entries, states, actions, k);
    forall id ensures id in states[k].live <==> id in states[k].leaked {
      assert Accounted(states[k], id);
    }
  }

  /** As the comment intends, once everything has been handled no completion object is left. */
  lemma IntendedLeavesNothing(entries: nat, states: seq<State>, actions: seq<Action>, k: nat)
    requires IsRun(Intended, entries, states, actions) && k < |states| && Idle(states[k])
    ensures states[k].live == {}
  {
    IdleHoldsOnlyLeaks(Intended, entries, states, actions, k);
    LeakedIff(Intended, entries, states, actions, k);
  }

  /** As written, once everything has been handled no completion object is left if and only if
      the callback of every last entry threw. */
  lemma WrittenLeavesNothingIff(entries: nat, states: seq<State>, actions: seq<Action>, k: nat)
    requires IsRun(AsWritten, entries, states, actions) && k < |states| && Idle(states[k])
    ensures states[k].live == {} <==>
              forall m :: 0 <= m < k && actions[m].End? ==>
                actions[m].j < |states[m].running| && (states[m].running[actions[m].j].more || actions[m].throws)
  {
    IdleHoldsOnlyLeaks(AsWritten, entries, states, actions, k);
    LeakedIff(AsWritten, entries, states, actions, k);
    forall m | 0 <= m < k
      ensures Leaks(AsWritten, states[m], actions[m]) <==>
                actions[m].End? && !(actions[m].j < |states[m].running|
                                     && (states[m].running[actions[m].j].more || actions[m].throws))
    {
      assert Stepped(AsWritten, entries, states, actions, m);
    }
  }

  /** One operation whose last callback returns normally is enough: everything has been handled,
      and its completion is still there. */
  lemma WrittenCanLeak(id: Id, res: int) returns (states: seq<State>, actions: seq<Action>)
    ensures IsRun(AsWritten, 1, states, actions) && Idle(states[|actions|]) && states[|actions|].live == {id}
  {
    var c, log := Cqe(id, false, res), [Alloc(id)];
    states, actions := ReapsTheLast(id, res);
    var s := states[|actions|];
    states, actions := Extend(AsWritten, 1, states, actions, Begin(0),
      s.(reaped := [], running := [c], log := log + [Use(id)]));
    states, actions := Extend(AsWritten, 1, states, actions, End(0, false),
      s.(reaped := [], running := [], leaked := {id}, log := log + [Use(id)]));
  }

  lemma ReapsTheLast(id: Id, res: int) returns (states: seq<State>, actions: seq<Action>)
    ensures IsRun(AsWritten, 1, states, actions)
    ensures var c := Cqe(id, false, res);
            states[|actions|] == State([], {}, [], [c], [], {id}, {}, [Alloc(id)], [c], [c])
  {
    var c, log := Cqe(id, false, res), [Alloc(id)];
    states, actions := [START], [];
    states, actions := Extend(AsWritten, 1, states, actions, SubmitOk(id),
      State([id], {}, [], [], [], {id}, {}, log, [], []));
    states, actions := Extend(AsWritten, 1, states, actions, Consume,
      State([], {id}, [], [], [], {id}, {}, log, [], []));
    states, actions := Extend(AsWritten, 1, states, actions, PostCqe(id, false, res),
      State([], {}, [c], [], [], {id}, {}, log, [c], []));
    states, actions := Extend(AsWritten, 1, states, actions, Reap(1),
      State([], {}, [], [c], [], {id}, {}, log, [c], [c]));
  }

  /** Why entries of one operation must be handled in the order they came: if its last one is
      handled, and deletes the completion, before another that was reaped earlier, then handling
      that other one uses the freed completion. */
  lemma OutOfOrderUsesFreed(policy: Policy, s: State, i: nat, j: nat, throws: bool)
    requires Inv(s) && i < j < |s.reaped| && s.reaped[i].id == s.reaped[j].id
    requires Deletes(policy, s.reaped[j], throws)
    ensures var begun := Apply(policy, s, Begin(j));
            var ended := Apply(policy, begun, End(|s.running|, throws));
            && i < |ended.reaped| && Named(ended, s.reaped[i].id) && s.reaped[i].id !in ended.live
            && Replay(Apply(policy, ended, Begin(i)).log) == None
  {
    var id := s.reaped[i].id;
    var begun := Apply(policy, s, Begin(j));
    var ended := Apply(policy, begun, End(|s.running|, throws));
    assert Pending(s)[j].id == id && Accounted(s, id);
    NamedIsLive(s, id);
    assert ended.reaped[i].id == id && Pending(ended)[i].id == id;
    ReplayNext(s.log, Use(id));
    ReplayNext(begun.log, Free(id));
    ReplayNext(ended.log, Use(id));
  }

  /** Every execution can come to that: an operation with two entries, both reaped at once, handled
      last entry first with a callback that throws. */
  lemma OutOfOrderHappens(policy: Policy, id: Id, res: int) returns (states: seq<State>, actions: seq<Action>)
    ensures IsRun(policy, 1, states, actions)
    ensures var s := states[|actions|];
            s.reaped == [Cqe(id, true, res), Cqe(id, false, res)] && s.running == [] && s.live == {id}
    ensures var ended := Apply(policy, Apply(policy, states[|actions|], Begin(1)), End(0, true));
            && ended.reaped == [Cqe(id, true, res)] && ended.live == {}
            && Replay(Apply(policy, ended, Begin(0)).log) == None
  {
    states, actions := ReapsBoth(policy, id, res);
    var s := states[|actions|];
    RunInv(policy, 1, states, actions, |actions|);
    OutOfOrderUsesFreed(policy, s, 0, 1, true);
  }

  lemma ReapsBoth(policy: Policy, id: Id, res: int) returns (states: seq<State>, actions: seq<Action>)
    ensures IsRun(policy, 1, states, actions)
    ensures var c, d := Cqe(id, true, res), Cqe(id, false, res);
            states[|actions|] == State([], {}, [], [c, d], [], {id}, {}, [Alloc(id)], [c, d], [c, d])
  {
    var c, d, log := Cqe(id, true, res), Cqe(id, false, res), [Alloc(id)];
    states, actions := [START], [];
    states, actions := Extend(policy, 1, states, actions, SubmitOk(id),
      State([id], {}, [], [], [], {id}, {}, log, [], []));
    states, actions := Extend(policy, 1, states, actions, Consume,
      State([], {id}, [], [], [], {id}, {}, log, [], []));
    states, actions := Extend(policy, 1, states, actions, PostCqe(id, true, res),
      State([], {id}, [c], [], [], {id}, {}, log, [c], []));
    states, actions := Extend(policy, 1, states, actions, PostCqe(id, false, res),
      State([], {}, [c, d], [], [], {id}, {}, log, [c, d], []));
    states, actions := Extend(policy, 1, states, actions, Reap(2),
      State([], {}, [], [c, d], [], {id}, {}, log, [c, d], [c, d]));
  }

  /** Whatever the capacities, reaping delivers the posted entries in order, without loss or
      duplication, each time as many as there are and fit. */
  lemma ReapsInOrder(policy: Policy, entries: nat, states: seq<State>, actions: seq<Action>, k: nat)
    requires IsRun(policy, entries, states, actions) && k < |states|
    ensures states[k].posted == states[k].delivered + states[k].cq
    ensures k < |actions| && actions[k].Reap? ==>
              var batch := Min(actions[k].capacity, |states[k].cq|);
              && states[k + 1].delivered == states[k].delivered + states[k].cq[..batch]
              && states[k + 1].cq == states[k].cq[batch..]
              && (batch == actions[k].capacity || states[k + 1].cq == [])
  {
    RunInv(policy, entries, states, actions, k);
    if k < |actions| {
      assert Stepped(policy, entries, states, actions, k);
    }
  }
}

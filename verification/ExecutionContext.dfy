/** tcx::unsynchronized_execution_context: a queue that is drained while its tasks refill it. */
module ExecutionContext {
  import opened Collections

  /** A task posts its children, in order, while it runs, and then may throw. */
  datatype Task = Task(id: nat, children: seq<Task>, throws: bool)

  function Ids(q: seq<Task>): seq<nat> {
    if q == [] then [] else [q[0].id] + Ids(q[1..])
  }

  function Children(q: seq<Task>): seq<Task> {
    if q == [] then [] else q[0].children + Children(q[1..])
  }

  /** How many tasks there are in a forest. */
  function Size(q: seq<Task>): nat {
    if q == [] then 0 else 1 + Size(q[0].children) + Size(q[1..])
  }

  lemma {:induction false} AppendIds(q: seq<Task>, r: seq<Task>)
    ensures Ids(q + r) == Ids(q) + Ids(r)
  {
    if q == [] {
      assert q + r == r;
    } else {
      AppendIds(q[1..], r);
      assert (q + r)[1..] == q[1..] + r;
    }
  }

  lemma {:induction false} AppendChildren(q: seq<Task>, r: seq<Task>)
    ensures Children(q + r) == Children(q) + Children(r)
  {
    if q == [] {
      assert q + r == r;
    } else {
      AppendChildren(q[1..], r);
      assert (q + r)[1..] == q[1..] + r;
      Associate(q[0].children, Children(q[1..]), Children(r));
    }
  }

  lemma {:induction false} AppendSize(q: seq<Task>, r: seq<Task>)
    ensures Size(q + r) == Size(q) + Size(r)
  {
    if q == [] {
      assert q + r == r;
    } else {
      AppendSize(q[1..], r);
      assert (q + r)[1..] == q[1..] + r;
    }
  }

  lemma {:induction false} SizeByLevel(q: seq<Task>)
    ensures Size(q) == |q| + Size(Children(q)) && |Ids(q)| == |q|
  {
    if q != [] {
      SizeByLevel(q[1..]);
      AppendSize(q[0].children, Children(q[1..]));
    }
  }

  /** The reference: a forest level by level, each level in order. */
  function BreadthFirst(q: seq<Task>): seq<Task>
    decreases Size(q)
  {
    SizeByLevel(q);
    if q == [] then [] else q + BreadthFirst(Children(q))
  }

  lemma {:induction false} BreadthFirstCounts(q: seq<Task>)
    ensures |BreadthFirst(q)| == Size(q)
    decreases Size(q)
  {
    SizeByLevel(q);
    if q != [] {
      BreadthFirstCounts(Children(q));
    }
  }

  /** How often a task is in a forest, at any depth. */
  function Occurrences(q: seq<Task>, id: nat): nat {
    if q == [] then 0
    else (if q[0].id == id then 1 else 0) + Occurrences(q[0].children, id) + Occurrences(q[1..], id)
  }

  lemma {:induction false} AppendOccurrences(q: seq<Task>, r: seq<Task>, id: nat)
    ensures Occurrences(q + r, id) == Occurrences(q, id) + Occurrences(r, id)
  {
    if q == [] {
      assert q + r == r;
    } else {
      AppendOccurrences(q[1..], r, id);
      assert (q + r)[1..] == q[1..] + r;
    }
  }

  lemma CountAppend(s: seq<nat>, t: seq<nat>, id: nat)
    ensures multiset(s + t)[id] == multiset(s)[id] + multiset(t)[id]
  {
    assert multiset(s + t) == multiset(s) + multiset(t);
  }

  lemma {:induction false} OccurrencesByLevel(q: seq<Task>, id: nat)
    ensures Occurrences(q, id) == multiset(Ids(q))[id] + Occurrences(Children(q), id)
  {
    if q != [] {
      OccurrencesByLevel(q[1..], id);
      AppendOccurrences(q[0].children, Children(q[1..]), id);
      CountAppend([q[0].id], Ids(q[1..]), id);
    }
  }

  /** The breadth-first order has every task of the forest, as often as it is there. */
  lemma {:induction false} BreadthFirstIsWhole(q: seq<Task>, id: nat)
    ensures multiset(Ids(BreadthFirst(q)))[id] == Occurrences(q, id)
    decreases Size(q)
  {
    SizeByLevel(q);
    if q != [] {
      OccurrencesByLevel(q, id);
      BreadthFirstIsWhole(Children(q), id);
      AppendIds(q, BreadthFirst(Children(q)));
      CountAppend(Ids(q), Ids(BreadthFirst(Children(q))), id);
    }
  }

  lemma NextLevel(q: seq<Task>, r: seq<Task>)
    requires q != [] || r != []
    ensures BreadthFirst(q + r) == q + r + BreadthFirst(Children(q) + Children(r))
  {
    AppendChildren(q, r);
    assert q + r != [];
  }

  lemma RotateLevel(q: seq<Task>, r: seq<Task>)
    requires q != [] && r != []
    requires BreadthFirst(Children(q) + Children(r))
               == Children(q) + BreadthFirst(Children(r) + Children(Children(q)))
    ensures BreadthFirst(q + r) == q + BreadthFirst(r + Children(q))
  {
    var next, deeper := Children(q), BreadthFirst(Children(r) + Children(Children(q)));
    NextLevel(q, r);
    NextLevel(r, Children(q));
    Associate(q + r, next, deeper);
    Associate(q, r, next);
    Associate(q, r + next, deeper);
  }

  /** Trees at the front of the queue may give way to their children at the back. */
  lemma {:induction false} Rotate(q: seq<Task>, r: seq<Task>)
    ensures BreadthFirst(q + r) == q + BreadthFirst(r + Children(q))
    decreases Size(q) + Size(r)
  {
    if q == [] {
      assert q + r == r && r + Children(q) == r;
    } else if r == [] {
      assert q + r == q && r + Children(q) == Children(q);
    } else {
      SizeByLevel(q);
      SizeByLevel(r);
      Rotate(Children(q), Children(r));
      RotateLevel(q, r);
    }
  }

  /** Popping the first task and posting its children at the back follows the breadth-first order. */
  lemma PopFront(q: seq<Task>)
    requires q != []
    ensures BreadthFirst(q) == [q[0]] + BreadthFirst(q[1..] + q[0].children)
    ensures Size(q[1..] + q[0].children) == Size(q) - 1
  {
    assert q == [q[0]] + q[1..];
    Rotate([q[0]], q[1..]);
    assert Children([q[0]]) == q[0].children;
    AppendSize(q[1..], q[0].children);
  }

  /** How a call of `run` ended: it returned its count, or a task's exception came through. */
  datatype Outcome = Returned(count: nat) | Threw(id: nat)

  /** One call of `run`: what it executes, what it leaves, how it ends. */
  function RunOf(q: seq<Task>): (seq<Task>, seq<Task>, Outcome)
    decreases Size(q)
  {
    if q == [] then ([], [], Returned(0))
    else
      var rest := q[1..] + q[0].children;
      PopFront(q);
      if q[0].throws then ([q[0]], rest, Threw(q[0].id))
      else
        var (done, left, end) := RunOf(rest);
        ([q[0]] + done, left, if end.Returned? then Returned(end.count + 1) else end)
  }

  /** A call that returns has emptied the queue and counted what it executed; one that throws has
      executed something. */
  lemma {:induction false} RunShape(q: seq<Task>)
    ensures var (done, left, end) := RunOf(q);
            && Size(left) + |done| == Size(q)
            && (end.Returned? ==> left == [] && end.count == |done|)
            && (end.Threw? ==> done != [] && end.id == done[|done| - 1].id)
            && (q != [] ==> done != [])
    decreases Size(q)
  {
    if q != [] {
      PopFront(q);
      if !q[0].throws {
        RunShape(q[1..] + q[0].children);
      }
    }
  }

  predicate NoneThrows(done: seq<Task>) { forall i :: 0 <= i < |done| ==> !done[i].throws }

  /** The first task that throws is the last one of `done`, and there is one if and only if the
      call ended that way. */
  predicate StopsAtFirst(done: seq<Task>, end: Outcome) {
    && (end.Returned? ==> NoneThrows(done))
    && (end.Threw? ==> done != [] && done[|done| - 1].throws && NoneThrows(done[..|done| - 1]))
  }

  lemma OneMoreQuiet(f: Task, done: seq<Task>, end: Outcome, end': Outcome)
    requires StopsAtFirst(done, end) && !f.throws && (end'.Returned? <==> end.Returned?)
    ensures StopsAtFirst([f] + done, end')
  {
    var more := [f] + done;
    assert forall i :: 0 < i < |more| ==> more[i] == done[i - 1];
    if end.Threw? {
      assert forall i :: 0 < i < |more| - 1 ==> more[i] == done[..|done| - 1][i - 1];
    }
  }

  lemma {:induction false} RunStopsAtFirst(q: seq<Task>)
    ensures StopsAtFirst(RunOf(q).0, RunOf(q).2)
    decreases Size(q)
  {
    if q != [] && !q[0].throws {
      PopFront(q);
      var rest := q[1..] + q[0].children;
      RunStopsAtFirst(rest);
      OneMoreQuiet(q[0], RunOf(rest).0, RunOf(rest).2, RunOf(q).2);
    }
  }

  /** What one call executes, followed by the breadth-first order of what it leaves, is the
      breadth-first order of what it was given. */
  lemma {:induction false} RunIsBreadthFirst(q: seq<Task>)
    ensures RunOf(q).0 + BreadthFirst(RunOf(q).1) == BreadthFirst(q)
    decreases Size(q)
  {
    if q != [] {
      PopFront(q);
      var rest := q[1..] + q[0].children;
      if !q[0].throws {
        RunIsBreadthFirst(rest);
      }
    }
  }

  ghost predicate Throws(q: seq<Task>) {
    q != [] && (q[0].throws || Throws(q[0].children) || Throws(q[1..]))
  }

  lemma {:induction false} AppendThrows(q: seq<Task>, r: seq<Task>)
    ensures Throws(q + r) <==> Throws(q) || Throws(r)
  {
    if q == [] {
      assert q + r == r;
    } else {
      AppendThrows(q[1..], r);
      assert (q + r)[1..] == q[1..] + r;
    }
  }

  /** `run` returns, with the size of the whole forest, if and only if no task in it throws. */
  lemma {:induction false} ReturnsIff(q: seq<Task>)
    ensures RunOf(q).2.Returned? <==> !Throws(q)
    ensures !Throws(q) ==> RunOf(q).0 == BreadthFirst(q) && RunOf(q).2 == Returned(Size(q))
    decreases Size(q)
  {
    RunIsBreadthFirst(q);
    BreadthFirstCounts(q);
    if q != [] {
      PopFront(q);
      AppendThrows(q[1..], q[0].children);
      if !q[0].throws {
        ReturnsIff(q[1..] + q[0].children);
      }
    }
  }

  /** Calling `run` again after every exception, until the queue is empty. */
  function Drain(q: seq<Task>): seq<Task>
    decreases Size(q)
  {
    if q == [] then []
    else RunShape(q); RunOf(q).0 + Drain(RunOf(q).1)
  }

  /** However many exceptions interrupt it, draining executes exactly the breadth-first order. */
  lemma {:induction false} DrainIsBreadthFirst(q: seq<Task>)
    ensures Drain(q) == BreadthFirst(q)
    decreases Size(q)
  {
    RunIsBreadthFirst(q);
    if q != [] {
      RunShape(q);
      DrainIsBreadthFirst(RunOf(q).1);
    }
  }

  class UnsynchronizedExecutionContext {
    var functionQueue: seq<Task>
    ghost var executed: seq<Task>

    constructor ()
      ensures functionQueue == [] && executed == []
    {
      functionQueue, executed := [], [];
    }

    method Post(f: Task)
      modifies this`functionQueue
      ensures functionQueue == old(functionQueue) + [f]
    {
      functionQueue := functionQueue + [f];
    }

    function Pending(): nat
      reads this
    {
      |functionQueue|
    }

    /** The call of a task: it posts its children. */
    method Invoke(f: Task) returns (threw: bool)
      modifies this
      ensures functionQueue == old(functionQueue) + f.children && executed == old(executed) + [f]
      ensures threw == f.throws
    {
      executed := executed + [f];
      var i := 0;
      while i < |f.children|
        invariant 0 <= i <= |f.children| && executed == old(executed) + [f]
        invariant functionQueue == old(functionQueue) + f.children[..i]
      {
        Post(f.children[i]);
        i := i + 1;
      }
      threw := f.throws;
    }

    method Run() returns (end: Outcome)
      modifies this
      ensures executed == old(executed) + RunOf(old(functionQueue)).0
      ensures functionQueue == RunOf(old(functionQueue)).1 && end == RunOf(old(functionQueue)).2
    {
      var count := 0;
      ghost var whole := RunOf(functionQueue);
      ghost var done := [];
      while functionQueue != []
        invariant executed == old(executed) + done && Remains(done, count, functionQueue, whole)
        decreases Size(functionQueue)
      {
        RunStep(done, count, functionQueue, whole);
        var f := functionQueue[0];
        functionQueue := functionQueue[1..];
        var threw := Invoke(f);
        done := done + [f];
        if threw {
          return Threw(f.id);
        }
        count := count + 1;
      }
      return Returned(count);
    }
  }

  function Plus(end: Outcome, count: nat): Outcome {
    if end.Returned? then Returned(end.count + count) else end
  }

  /** After executing `done` and counting `count`, what is left of the call `whole` is to run `q`. */
  ghost predicate Remains(done: seq<Task>, count: nat, q: seq<Task>, whole: (seq<Task>, seq<Task>, Outcome)) {
    whole.0 == done + RunOf(q).0 && whole.1 == RunOf(q).1 && whole.2 == Plus(RunOf(q).2, count)
  }

  lemma RunStep(done: seq<Task>, count: nat, q: seq<Task>, whole: (seq<Task>, seq<Task>, Outcome))
    requires q != [] && Remains(done, count, q, whole)
    ensures var rest := q[1..] + q[0].children;
            && Size(rest) < Size(q)
            && (q[0].throws ==> whole == (done + [q[0]], rest, Threw(q[0].id)))
            && (!q[0].throws ==> Remains(done + [q[0]], count + 1, rest, whole))
  {
    PopFront(q);
    var rest := q[1..] + q[0].children;
    assert !q[0].throws ==> done + [q[0]] + RunOf(rest).0 == done + ([q[0]] + RunOf(rest).0);
  }
}

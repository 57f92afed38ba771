/** The function objects of tcx::synchronized_execution_context: one in every cell of its queue and
    one in every call of `run`. Popping is a move-assignment, which is a swap, followed by the end
    of the cell; what a runner's object held before dies with the cell, and what it holds now stays
    until the next pop or the end of the call. */
module RetainedCallables {
  import opened Collections
  import opened Layout
  import opened CallableStore
  import opened Ownership
  import opened Effects
  import opened ExecutionContext
  import Context = SynchronizedContext

  /** The context, the memory, where the queue's cells are, and where each runner's `f` is;
      `destroyed` counts the callables destroyed so far. */
  datatype Machine = Machine(s: Context.State, w: World, cells: seq<nat>, slots: seq<nat>, destroyed: int)

  /** A step with the memory it is given: an address for a new function object and, for a new
      callable, its type and an address on the heap. */
  datatype Step = Step(a: Context.Action, at: nat, ty: Type, heap: nat)

  /** The task that a step posts. */
  function PostedBy(s: Context.State, a: Context.Action): Option<Task>
    requires Context.Enabled(s, a)
  {
    match a
    case PostOutside(f) => Some(f)
    case PostChild(r) => Some(s.runners[r].slot.value.children[s.runners[r].place.done])
    case _ => None
  }

  // ----- What becomes of the function objects

  /** `try_pop(f)` for the cell at `cell` and `f` at `slot`. */
  ghost function PopWorld(w: World, slot: nat, cell: nat): World
    requires WellFormed(w) && slot in w.headers && cell in w.headers && slot != cell
  {
    SwapExchanges(w, slot, cell);
    Do(Do(w, MoveAssign(slot, cell)), Delete(cell))
  }

  /** Popping hands the cell's callable to the runner; what the runner's object owned is destroyed. */
  lemma PopHandsOver(w: World, slot: nat, cell: nat)
    requires WellFormed(w) && slot in w.headers && cell in w.headers && slot != cell
    ensures var w' := PopWorld(w, slot, cell);
            && WellFormed(w') && w'.headers.Keys == w.headers.Keys - {cell}
            && ContentOf(w', slot) == ContentOf(w, cell)
            && |w'.live| == |w.live| - Bit(ContentOf(w, slot).Owned?)
            && forall c :: c in w.headers && c != slot && c != cell ==> Same(w, w', c)
  {
    var moved := Do(w, MoveAssign(slot, cell));
    SwapExchanges(w, slot, cell);
    DoCounts(w, MoveAssign(slot, cell));
    DeleteEffect(moved, cell);
    forall c | c in w.headers && c != slot && c != cell ensures Same(w, PopWorld(w, slot, cell), c) {
      assert Same(moved, PopWorld(w, slot, cell), c);
    }
    assert Same(moved, PopWorld(w, slot, cell), slot);
  }

  // ----- The machine

  /** The wrapper at `c` owns the callable of `task`. */
  ghost predicate Carries(w: World, c: nat, task: Task) {
    WellFormed(w) && c in w.headers && ContentOf(w, c).Owned? && ContentOf(w, c).val == task.id
  }

  /** A runner's function object is there while it is inside `run`, and holds its task's callable. */
  ghost predicate Holds(w: World, x: Context.Runner, slot: nat) {
    !x.place.Away? ==>
      && WellFormed(w) && slot in w.headers
      && (x.slot.Some? ==> Carries(w, slot, x.slot.value)) && (x.slot.None? ==> ContentOf(w, slot) == Empty)
  }

  ghost predicate Housed(m: Machine) {
    && WellFormed(m.w) && |m.cells| == |m.s.queue| && |m.slots| == |m.s.runners|
    && (forall i :: 0 <= i < |m.cells| ==> Carries(m.w, m.cells[i], m.s.queue[i]))
    && (forall r :: 0 <= r < |m.slots| ==> Holds(m.w, m.s.runners[r], m.slots[r]))
  }

  /** No two of them are the same. */
  ghost predicate Distinct(m: Machine)
    requires |m.slots| == |m.s.runners|
  {
    && (forall i, j :: 0 <= i < j < |m.cells| ==> m.cells[i] != m.cells[j])
    && (forall r, q :: 0 <= r < q < |m.slots| && !m.s.runners[r].place.Away? && !m.s.runners[q].place.Away? ==>
          m.slots[r] != m.slots[q])
    && (forall r, i :: 0 <= r < |m.slots| && 0 <= i < |m.cells| && !m.s.runners[r].place.Away? ==>
          m.slots[r] != m.cells[i])
  }

  function Kept(x: Context.Runner): int { Bit(x.slot.Some?) }

  ghost predicate Counted(m: Machine) {
    |m.w.live| == |m.s.queue| + Sum(m.s.runners, Kept) && |m.s.posted| == |m.w.live| + m.destroyed
  }

  ghost predicate Inv(m: Machine) { Context.Inv(m.s) && Housed(m) && Distinct(m) && Counted(m) }

  /** Only what the allocator and the stack promise is asked for. */
  ghost predicate CanStep(m: Machine, step: Step) {
    && Context.Enabled(m.s, step.a)
    && (PostedBy(m.s, step.a).Some? ==>
          CanDo(m.w, NewObject(step.at, step.ty, PostedBy(m.s, step.a).value.id, step.heap)))
    && (step.a.Enter? ==> CanDo(m.w, NewEmpty(step.at)))
  }

  /** The function object at `slot` goes. */
  ghost function Left(m: Machine, s: Context.State, slot: nat): Machine
    requires WellFormed(m.w) && slot in m.w.headers
  {
    m.(s := s, w := Do(m.w, Delete(slot)), destroyed := m.destroyed + Died(m.w, Delete(slot)))
  }

  ghost function PoppedInto(m: Machine, s: Context.State, slot: nat): Machine
    requires WellFormed(m.w) && m.cells != [] && slot in m.w.headers && m.cells[0] in m.w.headers && slot != m.cells[0]
  {
    SwapExchanges(m.w, slot, m.cells[0]);
    m.(s := s, w := PopWorld(m.w, slot, m.cells[0]), cells := m.cells[1..],
       destroyed := m.destroyed + Died(Do(m.w, MoveAssign(slot, m.cells[0])), Delete(m.cells[0])))
  }

  ghost function Next(m: Machine, step: Step): Machine
    requires Inv(m) && CanStep(m, step)
  {
    var s, a := Context.Apply(m.s, step.a), step.a;
    var f := PostedBy(m.s, a);
    if f.Some? then
      m.(s := s, w := Do(m.w, NewObject(step.at, step.ty, f.value.id, step.heap)), cells := m.cells + [step.at])
    else if a.Enter? then m.(s := s, w := Do(m.w, NewEmpty(step.at)), slots := m.slots[a.r := step.at])
    else if a.Escape? || (a.TryPop? && m.s.queue == []) then Inside(m, a.r); Left(m, s, m.slots[a.r])
    else if a.TryPop? then Inside(m, a.r); PoppedInto(m, s, m.slots[a.r])
    else m.(s := s)
  }

  lemma Inside(m: Machine, r: nat)
    requires Inv(m) && r < |m.s.runners| && !m.s.runners[r].place.Away?
    ensures m.slots[r] in m.w.headers
    ensures m.cells != [] ==> m.cells[0] in m.w.headers && m.slots[r] != m.cells[0]
  {
    assert Holds(m.w, m.s.runners[r], m.slots[r]);
  }

  // ----- Every step keeps it

  /** The two runners' function objects have the same to hold. */
  predicate Alike(x: Context.Runner, x': Context.Runner) { x'.place.Away? == x.place.Away? && x'.slot == x.slot }

  predicate AllAlike(s: Context.State, s': Context.State) {
    |s'.runners| == |s.runners| && forall r :: 0 <= r < |s.runners| ==> Alike(s.runners[r], s'.runners[r])
  }

  lemma HoldsStill(w: World, w': World, x: Context.Runner, x': Context.Runner, slot: nat)
    requires Holds(w, x, slot) && Alike(x, x') && (!x.place.Away? ==> Same(w, w', slot))
    ensures Holds(w', x', slot)
  {}

  lemma PostHoused(m: Machine, m': Machine, at: nat, f: Task)
    requires Housed(m) && Distinct(m) && at !in m.w.headers && AllAlike(m.s, m'.s)
    requires WellFormed(m'.w) && Carries(m'.w, at, f) && forall c :: c in m.w.headers ==> Same(m.w, m'.w, c)
    requires m'.s.queue == m.s.queue + [f] && m'.cells == m.cells + [at] && m'.slots == m.slots
    ensures Housed(m') && Distinct(m')
  {
    forall i | 0 <= i < |m'.cells|
      ensures Carries(m'.w, m'.cells[i], m'.s.queue[i]) && (i < |m.cells| ==> m'.cells[i] != at)
    {
      if i < |m.cells| {
        assert Carries(m.w, m.cells[i], m.s.queue[i]) && Same(m.w, m'.w, m.cells[i]);
      }
    }
    forall r | 0 <= r < |m'.slots|
      ensures Holds(m'.w, m'.s.runners[r], m'.slots[r]) && (!m.s.runners[r].place.Away? ==> m.slots[r] != at)
    {
      assert Holds(m.w, m.s.runners[r], m.slots[r]);
      HoldsStill(m.w, m'.w, m.s.runners[r], m'.s.runners[r], m.slots[r]);
    }
  }

  lemma EnterHoused(m: Machine, m': Machine, r: nat, at: nat, x: Context.Runner)
    requires Housed(m) && Distinct(m) && at !in m.w.headers && r < |m.slots|
    requires !x.place.Away? && x.slot.None? && m'.s.runners == m.s.runners[r := x]
    requires WellFormed(m'.w) && at in m'.w.headers && ContentOf(m'.w, at) == Empty
    requires forall c :: c in m.w.headers ==> Same(m.w, m'.w, c)
    requires m'.s.queue == m.s.queue && m'.cells == m.cells && m'.slots == m.slots[r := at]
    ensures Housed(m') && Distinct(m')
  {
    forall i | 0 <= i < |m'.cells| ensures Carries(m'.w, m'.cells[i], m'.s.queue[i]) && m.cells[i] != at {
      assert Carries(m.w, m.cells[i], m.s.queue[i]) && Same(m.w, m'.w, m.cells[i]);
    }
    forall q | 0 <= q < |m'.slots|
      ensures Holds(m'.w, m'.s.runners[q], m'.slots[q])
      ensures q != r && !m.s.runners[q].place.Away? ==> m.slots[q] != at
    {
      if q != r {
        assert Holds(m.w, m.s.runners[q], m.slots[q]);
        HoldsStill(m.w, m'.w, m.s.runners[q], m'.s.runners[q], m.slots[q]);
      }
    }
  }

  lemma LeaveHoused(m: Machine, m': Machine, r: nat, x: Context.Runner)
    requires Housed(m) && Distinct(m) && r < |m.slots| && !m.s.runners[r].place.Away?
    requires x.place.Away? && m'.s.runners == m.s.runners[r := x] && WellFormed(m'.w)
    requires forall c :: c in m.w.headers && c != m.slots[r] ==> Same(m.w, m'.w, c)
    requires m'.s.queue == m.s.queue && m'.cells == m.cells && m'.slots == m.slots
    ensures Housed(m') && Distinct(m')
  {
    forall i | 0 <= i < |m'.cells| ensures Carries(m'.w, m'.cells[i], m'.s.queue[i]) {
      assert Carries(m.w, m.cells[i], m.s.queue[i]) && Same(m.w, m'.w, m.cells[i]);
    }
    forall q | 0 <= q < |m'.slots| ensures Holds(m'.w, m'.s.runners[q], m'.slots[q]) {
      if q != r {
        assert Holds(m.w, m.s.runners[q], m.slots[q]);
        assert !m.s.runners[q].place.Away? ==> m.slots[q] != m.slots[r];
        HoldsStill(m.w, m'.w, m.s.runners[q], m'.s.runners[q], m.slots[q]);
      }
    }
  }

  lemma PopHoused(m: Machine, m': Machine, r: nat, x: Context.Runner)
    requires Housed(m) && Distinct(m) && r < |m.slots| && !m.s.runners[r].place.Away? && m.cells != []
    requires WellFormed(m'.w) && m'.slots == m.slots
    requires forall c :: c in m.w.headers && c != m.slots[r] && c != m.cells[0] ==> Same(m.w, m'.w, c)
    requires x.slot == Some(m.s.queue[0]) && m'.s.runners == m.s.runners[r := x] && !x.place.Away?
    requires Carries(m'.w, m.slots[r], m.s.queue[0])
    requires m'.s.queue == m.s.queue[1..] && m'.cells == m.cells[1..]
    ensures Housed(m') && Distinct(m')
  {
    forall i | 0 <= i < |m'.cells| ensures Carries(m'.w, m'.cells[i], m'.s.queue[i]) {
      CellAfterPop(m, m', r, i + 1);
    }
    forall q | 0 <= q < |m'.slots| ensures Holds(m'.w, m'.s.runners[q], m'.slots[q]) {
      if q != r {
        SlotAfterPop(m, m', r, q);
      }
    }
    DistinctAfterPop(m, m', r, x);
  }

  lemma DistinctAfterPop(m: Machine, m': Machine, r: nat, x: Context.Runner)
    requires |m.slots| == |m.s.runners| && Distinct(m) && r < |m.slots| && !m.s.runners[r].place.Away? && m.cells != []
    requires m'.slots == m.slots && m'.cells == m.cells[1..] && m'.s.runners == m.s.runners[r := x]
    ensures Distinct(m')
  {}

  lemma CellAfterPop(m: Machine, m': Machine, r: nat, i: nat)
    requires Housed(m) && Distinct(m) && r < |m.slots| && !m.s.runners[r].place.Away? && m.cells != []
    requires WellFormed(m'.w) && m'.slots == m.slots
    requires forall c :: c in m.w.headers && c != m.slots[r] && c != m.cells[0] ==> Same(m.w, m'.w, c)
    requires 0 < i < |m.cells|
    ensures Carries(m'.w, m.cells[i], m.s.queue[i])
  {
    assert Carries(m.w, m.cells[i], m.s.queue[i]);
    assert m.cells[i] != m.cells[0] && m.cells[i] != m.slots[r];
    assert Same(m.w, m'.w, m.cells[i]);
  }

  lemma SlotAfterPop(m: Machine, m': Machine, r: nat, q: nat)
    requires Housed(m) && Distinct(m) && r < |m.slots| && !m.s.runners[r].place.Away? && m.cells != []
    requires WellFormed(m'.w) && m'.slots == m.slots
    requires forall c :: c in m.w.headers && c != m.slots[r] && c != m.cells[0] ==> Same(m.w, m'.w, c)
    requires q < |m.slots| && q != r
    ensures Holds(m'.w, m.s.runners[q], m.slots[q])
  {
    assert Holds(m.w, m.s.runners[q], m.slots[q]);
    if !m.s.runners[q].place.Away? {
      assert m.slots[q] != m.slots[r] && m.slots[q] != m.cells[0];
      assert Same(m.w, m'.w, m.slots[q]);
    }
  }

  lemma QuietHoused(m: Machine, m': Machine)
    requires Housed(m) && Distinct(m) && AllAlike(m.s, m'.s)
    requires m'.s.queue == m.s.queue && m' == m.(s := m'.s)
    ensures Housed(m') && Distinct(m')
  {
    forall r | 0 <= r < |m'.slots| ensures Holds(m'.w, m'.s.runners[r], m'.slots[r]) {
      assert Holds(m.w, m.s.runners[r], m.slots[r]);
    }
  }

  lemma StepPosts(m: Machine, step: Step)
    requires Inv(m) && CanStep(m, step) && PostedBy(m.s, step.a).Some?
    ensures Housed(Next(m, step)) && Distinct(Next(m, step)) && Counted(Next(m, step))
  {
    var f, s := PostedBy(m.s, step.a).value, Context.Apply(m.s, step.a);
    ObjectEffect(m.w, step.at, step.ty, f.id, step.heap);
    PostIsOnePush(m.s, step.a);
    PostHoused(m, Next(m, step), step.at, f);
  }

  lemma PostIsOnePush(s: Context.State, a: Context.Action)
    requires Context.Enabled(s, a) && PostedBy(s, a).Some?
    ensures var s', f := Context.Apply(s, a), PostedBy(s, a).value;
            && AllAlike(s, s') && s'.queue == s.queue + [f] && s'.posted == s.posted + [f]
            && Sum(s'.runners, Kept) == Sum(s.runners, Kept)
  {
    if a.PostChild? {
      SumUpdate(s.runners, a.r, Context.Apply(s, a).runners[a.r], Kept);
    }
  }

  lemma StepEnters(m: Machine, step: Step)
    requires Inv(m) && CanStep(m, step) && step.a.Enter?
    ensures Housed(Next(m, step)) && Distinct(Next(m, step)) && Counted(Next(m, step))
  {
    var x := Context.Apply(m.s, step.a).runners[step.a.r];
    EmptyEffect(m.w, step.at);
    assert Context.Sound(m.s.runners[step.a.r]);
    SumUpdate(m.s.runners, step.a.r, x, Kept);
    EnterHoused(m, Next(m, step), step.a.r, step.at, x);
  }

  /** A runner's function object owns a callable exactly when it holds one. */
  lemma OwnsWhatItHolds(m: Machine, r: nat)
    requires Inv(m) && r < |m.s.runners| && !m.s.runners[r].place.Away?
    ensures m.slots[r] in m.w.headers && Bit(ContentOf(m.w, m.slots[r]).Owned?) == Kept(m.s.runners[r])
  {
    assert Holds(m.w, m.s.runners[r], m.slots[r]);
  }

  lemma StepLeaves(m: Machine, step: Step)
    requires Inv(m) && CanStep(m, step) && (step.a.Escape? || (step.a.TryPop? && m.s.queue == []))
    ensures Housed(Next(m, step)) && Distinct(Next(m, step)) && Counted(Next(m, step))
  {
    var r, x := step.a.r, Context.Apply(m.s, step.a).runners[step.a.r];
    OwnsWhatItHolds(m, r);
    DeleteEffect(m.w, m.slots[r]);
    SumUpdate(m.s.runners, r, x, Kept);
    LeaveHoused(m, Next(m, step), r, x);
  }

  lemma PopDestroys(w: World, slot: nat, cell: nat)
    requires WellFormed(w) && slot in w.headers && cell in w.headers && slot != cell
    ensures WellFormed(Do(w, MoveAssign(slot, cell))) && cell in Do(w, MoveAssign(slot, cell)).headers
    ensures Died(Do(w, MoveAssign(slot, cell)), Delete(cell)) == Bit(ContentOf(w, slot).Owned?)
  {
    SwapExchanges(w, slot, cell);
    DeleteEffect(Do(w, MoveAssign(slot, cell)), cell);
  }

  /** What popping does to the machine. */
  lemma PopEffect(m: Machine, step: Step)
    requires Inv(m) && CanStep(m, step) && step.a.TryPop? && m.s.queue != []
    ensures m.slots[step.a.r] in m.w.headers && m.cells[0] in m.w.headers && m.slots[step.a.r] != m.cells[0]
    ensures var m', r := Next(m, step), step.a.r;
            && m'.w == PopWorld(m.w, m.slots[r], m.cells[0]) && m'.cells == m.cells[1..] && m'.slots == m.slots
            && m'.s.queue == m.s.queue[1..] && m'.s.posted == m.s.posted
            && m'.s.runners == m.s.runners[r := m.s.runners[r].(place := Context.Popped, slot := Some(m.s.queue[0]))]
            && m'.destroyed == m.destroyed + Bit(ContentOf(m.w, m.slots[r]).Owned?)
  {
    Inside(m, step.a.r);
    PopDestroys(m.w, m.slots[step.a.r], m.cells[0]);
  }

  lemma StepPops(m: Machine, step: Step)
    requires Inv(m) && CanStep(m, step) && step.a.TryPop? && m.s.queue != []
    ensures Housed(Next(m, step)) && Distinct(Next(m, step)) && Counted(Next(m, step))
  {
    PopEffect(m, step);
    PopHandsOver(m.w, m.slots[step.a.r], m.cells[0]);
    PopHousedAndCounted(m, Next(m, step), step.a.r);
  }

  lemma PopHousedAndCounted(m: Machine, m': Machine, r: nat)
    requires Inv(m) && m.cells != [] && r < |m.slots| && !m.s.runners[r].place.Away?
    requires WellFormed(m'.w) && m.slots[r] in m'.w.headers && m.slots[r] in m.w.headers && m.cells[0] in m.w.headers
    requires ContentOf(m'.w, m.slots[r]) == ContentOf(m.w, m.cells[0])
    requires |m'.w.live| == |m.w.live| - Bit(ContentOf(m.w, m.slots[r]).Owned?)
    requires forall c :: c in m.w.headers && c != m.slots[r] && c != m.cells[0] ==> Same(m.w, m'.w, c)
    requires m'.cells == m.cells[1..] && m'.slots == m.slots
    requires m'.s.queue == m.s.queue[1..] && m'.s.posted == m.s.posted
    requires m'.s.runners == m.s.runners[r := m.s.runners[r].(place := Context.Popped, slot := Some(m.s.queue[0]))]
    requires m'.destroyed == m.destroyed + Bit(ContentOf(m.w, m.slots[r]).Owned?)
    ensures Housed(m') && Distinct(m') && Counted(m')
  {
    var x := m'.s.runners[r];
    assert Carries(m.w, m.cells[0], m.s.queue[0]);
    OwnsWhatItHolds(m, r);
    SumUpdate(m.s.runners, r, x, Kept);
    PopHoused(m, m', r, x);
  }

  lemma StepIsQuiet(m: Machine, step: Step)
    requires Inv(m) && CanStep(m, step) && (step.a.Call? || step.a.Finish?)
    ensures Housed(Next(m, step)) && Distinct(Next(m, step)) && Counted(Next(m, step))
  {
    var s := Context.Apply(m.s, step.a);
    assert AllAlike(m.s, s);
    SumUpdate(m.s.runners, step.a.r, s.runners[step.a.r], Kept);
    QuietHoused(m, Next(m, step));
  }

  lemma NextContext(m: Machine, step: Step)
    requires Inv(m) && CanStep(m, step)
    ensures Next(m, step).s == Context.Apply(m.s, step.a)
  {}

  /** Whatever step the context takes, the memory for it is there, every callable keeps its one
      owner, and those destroyed are accounted for. */
  lemma StepKeepsInv(m: Machine, step: Step)
    requires Inv(m) && CanStep(m, step)
    ensures Inv(Next(m, step)) && |Next(m, step).s.runners| == |m.s.runners|
  {
    NextContext(m, step);
    Context.StepKeepsInv(m.s, step.a);
    match step.a
    case PostOutside(_) => StepPosts(m, step);
    case PostChild(_) => StepPosts(m, step);
    case Enter(_) => StepEnters(m, step);
    case TryPop(_) => if m.s.queue == [] { StepLeaves(m, step); } else { StepPops(m, step); }
    case Escape(_) => StepLeaves(m, step);
    case _ => StepIsQuiet(m, step);
  }

  // ----- Over every run

  ghost predicate Starts(n: nat, m: Machine) {
    |m.slots| == n && m == Machine(Context.Init(n), NOTHING, [], m.slots, 0)
  }

  ghost predicate Follows(m: Machine, step: Step, m': Machine) {
    Inv(m) ==> CanStep(m, step) && m' == Next(m, step)
  }

  ghost predicate IsRun(n: nat, ms: seq<Machine>, steps: seq<Step>) {
    && |ms| == |steps| + 1 && Starts(n, ms[0])
    && forall i :: 0 <= i < |steps| ==> Follows(ms[i], steps[i], ms[i + 1])
  }

  lemma FirstInv(n: nat, m: Machine)
    requires Starts(n, m)
    ensures Inv(m) && |m.s.runners| == n
  {
    Context.InitInv(n);
    SumNonNegative(m.s.runners, Kept);
  }

  lemma NextInv(m: Machine, step: Step, m': Machine)
    requires Inv(m) && Follows(m, step, m')
    ensures Inv(m') && |m'.s.runners| == |m.s.runners|
  {
    StepKeepsInv(m, step);
  }

  lemma {:induction false} RunInv(n: nat, ms: seq<Machine>, steps: seq<Step>, k: nat)
    requires IsRun(n, ms, steps) && k < |ms|
    ensures Inv(ms[k]) && |ms[k].s.runners| == n
  {
    if k == 0 {
      FirstInv(n, ms[0]);
    } else {
      RunInv(n, ms, steps, k - 1);
      assert Follows(ms[k - 1], steps[k - 1], ms[k]);
      NextInv(ms[k - 1], steps[k - 1], ms[k]);
    }
  }

  /** Runners whose function object owns a callable. */
  ghost predicate Keeps(m: Machine, r: nat) {
    && r < |m.slots| == |m.s.runners| && !m.s.runners[r].place.Away?
    && WellFormed(m.w) && m.slots[r] in m.w.headers && ContentOf(m.w, m.slots[r]).Owned?
  }

  /** Callables do not pile up: of all that were popped, all are destroyed except one for each runner
      whose function object owns one, and that is the callable of the task it popped last. */
  lemma AtMostOneKept(n: nat, ms: seq<Machine>, steps: seq<Step>, k: nat)
    requires IsRun(n, ms, steps) && k < |ms|
    ensures var m := ms[k];
            && |m.s.popped| == m.destroyed + Sum(m.s.runners, Kept) && m.destroyed <= |m.s.popped| <= m.destroyed + n
            && |m.w.live| == |Owners(m.w)| == |m.s.queue| + Sum(m.s.runners, Kept)
            && |m.s.runners| == n
            && forall r :: 0 <= r < n ==>
                 (Kept(m.s.runners[r]) == 1 <==> Keeps(m, r)) &&
                 (Keeps(m, r) ==> m.s.runners[r].slot.Some? && Carries(m.w, m.slots[r], m.s.runners[r].slot.value))
  {
    var m := ms[k];
    RunInv(n, ms, steps, k);
    LiveAsOwned(m.w);
    SumNonNegative(m.s.runners, Kept);
    SumAtMostLength(m.s.runners);
    forall r | 0 <= r < n
      ensures Kept(m.s.runners[r]) == 1 <==> Keeps(m, r)
      ensures Keeps(m, r) ==> m.s.runners[r].slot.Some? && Carries(m.w, m.slots[r], m.s.runners[r].slot.value)
    {
      assert Context.Sound(m.s.runners[r]) && Holds(m.w, m.s.runners[r], m.slots[r]);
    }
  }

  lemma {:induction false} SumAtMostLength(runners: seq<Context.Runner>)
    ensures Sum(runners, Kept) <= |runners|
  {
    if runners != [] {
      SumAtMostLength(runners[1..]);
    }
  }
}

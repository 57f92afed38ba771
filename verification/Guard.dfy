/** tcx::unique_lock, the owner of one semaphore permit: the object, and the whole system of
    guards over a semaphore that any number of threads use at once. */
module Guard {
  import opened Collections
  import opened SemaphoreProtocol
  import opened SemaphoreSafety
  import opened Semaphore

  // ----- The object

  class UniqueLock {
    var sem: BasicSemaphore?
    var locked: bool

    constructor ()
      ensures sem == null && !locked
    {
      sem, locked := null, false;
    }

    constructor Adopt(s: BasicSemaphore)
      ensures sem == s && locked
    {
      sem, locked := s, true;
    }

    constructor TryToLock(s: BasicSemaphore)
      requires s.Valid()
      modifies s
      ensures s.Valid() && sem == s && s.functions == old(s.functions)
      ensures OwnsLock() <==> old(s.count) > 0
      ensures s.count == if OwnsLock() then old(s.count) - 1 else old(s.count)
    {
      var ok := s.TryAcquire();
      sem, locked := s, ok;
    }

    constructor Defer(s: BasicSemaphore)
      ensures sem == s && !locked
    {
      sem, locked := s, false;
    }

    predicate OwnsLock()
      reads this
    {
      sem != null && locked
    }

    /** Gives up the semaphore without returning the permit. */
    method Release() returns (s: BasicSemaphore?)
      modifies this
      ensures s == old(sem) && sem == null && !OwnsLock() && locked == old(locked)
    {
      s := sem;
      sem := null;
    }

    /** Returns the permit if there is one; afterwards there is none, so a second call is idle. As
        the semaphore is written, returning one permit wakes nobody. */
    method Unlock()
      requires OwnsLock() ==> sem.Valid()
      modifies this, if OwnsLock() then {sem as object, sem.executor as object} else {}
      ensures !OwnsLock() && locked == old(locked)
      ensures !old(OwnsLock()) ==> sem == old(sem)
      ensures old(OwnsLock()) ==>
                sem == null && old(sem).Valid() && old(sem).count == old(sem.count) + 1 &&
                old(sem).functions == old(sem.functions) && old(sem).executor.queue == old(sem.executor.queue)
    {
      if OwnsLock() {
        var s := sem;
        s.Release(1);
        assert s.executor.queue[|old(sem.executor.queue)|..] == [];
        sem := null;
      }
    }

    /** The destructor. */
    method Destroy()
      requires OwnsLock() ==> sem.Valid()
      modifies this, if OwnsLock() then {sem as object, sem.executor as object} else {}
      ensures !OwnsLock()
      ensures old(OwnsLock()) ==> old(sem).Valid() && old(sem).count == old(sem.count) + 1
    {
      Unlock();
    }
  }

  // ----- The system

  /** A guard is a value here: handed over, never copied. While its `unlock` is between the call of
      the semaphore's `release` and clearing the pointer, `unlocking` is the thread it runs on. */
  datatype Lock = Lock(attached: bool, locked: bool, unlocking: Option<nat>)

  /** What `owns_lock` answers. */
  predicate Owns(l: Lock) { l.attached && l.locked }

  /** The guard has a permit that it has not begun to return. */
  predicate Keeps(l: Lock) { Owns(l) && l.unlocking.None? }

  function OwnsOne(l: Lock): int { if Owns(l) then 1 else 0 }
  function KeepsOne(l: Lock): int { if Keeps(l) then 1 else 0 }
  function ReturnsOne(l: Lock): int { if Owns(l) && l.unlocking.Some? then 1 else 0 }

  /** `adopted` delivered completions and `taken` successful tries have been wrapped in guards;
      `detached` guards that owned a permit let go of the semaphore without returning it. */
  datatype System = System(sem: State, locks: seq<Lock>, adopted: nat, taken: nat, detached: nat)

  datatype Move =
    | Step(a: Action)
    | Adopt
    | WrapTry
    | WrapUnlocked
    | Unlock(g: nat, t: nat)
    | Clear(g: nat)
    | Detach(g: nat)

  /** The semaphore's own steps are free, except that only a guard starts a release; a guard clears
      its pointer when the release it called has returned. */
  predicate CanMove(s: System, m: Move) {
    match m
    case Step(a) => Enabled(s.sem, a) && !a.ReleaseStart?
    case Adopt => s.adopted < |s.sem.posted|
    case WrapTry => s.taken < TryTotal(s.sem)
    case WrapUnlocked => true
    case Unlock(g, t) => g < |s.locks| && Keeps(s.locks[g]) && Enabled(s.sem, ReleaseStart(t, 1))
    case Clear(g) =>
      && g < |s.locks| && s.locks[g].unlocking.Some?
      && s.locks[g].unlocking.value < |s.sem.threads| && s.sem.threads[s.locks[g].unlocking.value].Idle?
    case Detach(g) => g < |s.locks| && s.locks[g].unlocking.None?
  }

  const NEW_OWNER := Lock(true, true, None)

  function Make(policy: Policy, s: System, m: Move): System
    requires CanMove(s, m)
  {
    match m
    case Step(a) => s.(sem := Apply(policy, s.sem, a))
    case Adopt => s.(locks := s.locks + [NEW_OWNER], adopted := s.adopted + 1)
    case WrapTry => s.(locks := s.locks + [NEW_OWNER], taken := s.taken + 1)
    case WrapUnlocked => s.(locks := s.locks + [Lock(true, false, None)])
    case Unlock(g, t) =>
      s.(sem := Apply(policy, s.sem, ReleaseStart(t, 1)), locks := s.locks[g := s.locks[g].(unlocking := Some(t))])
    case Clear(g) => s.(locks := s.locks[g := s.locks[g].(attached := false, unlocking := None)])
    case Detach(g) =>
      s.(locks := s.locks[g := s.locks[g].(attached := false)],
         detached := if Owns(s.locks[g]) then s.detached + 1 else s.detached)
  }

  ghost predicate IsHistory(policy: Policy, desired: nat, n: nat, systems: seq<System>, moves: seq<Move>) {
    && |systems| == |moves| + 1
    && systems[0] == System(Init(desired, n), [], 0, 0, 0)
    && forall i :: 0 <= i < |moves| ==>
         CanMove(systems[i], moves[i]) && systems[i + 1] == Make(policy, systems[i], moves[i])
  }

  function Owning(s: System): int { Sum(s.locks, OwnsOne) }
  function Keeping(s: System): int { Sum(s.locks, KeepsOne) }
  function Returning(s: System): int { Sum(s.locks, ReturnsOne) }

  /** Permits granted that no guard holds yet: posted or being posted, owed, or a try's result. */
  function Unwrapped(s: System): int {
    |s.sem.posted| - s.adopted + TryTotal(s.sem) - s.taken + PostsInFlight(s.sem) + Owed(s.sem)
  }

  ghost predicate SystemInv(policy: Policy, desired: nat, s: System) {
    && Inv(policy, desired, s.sem)
    && s.adopted <= |s.sem.posted| && s.taken <= TryTotal(s.sem)
    && ReleasedTotal(s.sem) + Keeping(s) + s.detached == s.adopted + s.taken
  }

  lemma MoveKeepsInv(policy: Policy, desired: nat, s: System, m: Move)
    requires SystemInv(policy, desired, s) && CanMove(s, m)
    ensures SystemInv(policy, desired, Make(policy, s, m))
  {
    var s' := Make(policy, s, m);
    match m
    case Step(a) =>
      StepKeepsInv(policy, desired, s.sem, a);
      if |s'.sem.log| > |s.sem.log| {
        LogLedgers(policy, s.sem, s'.sem, s'.sem.log[|s.sem.log|]);
      }
    case Unlock(g, t) =>
      StepKeepsInv(policy, desired, s.sem, ReleaseStart(t, 1));
      LogLedgers(policy, s.sem, s'.sem, Released(s.sem.count, 1));
      SumUpdate(s.locks, g, s'.locks[g], KeepsOne);
    case Clear(g) => SumUpdate(s.locks, g, s'.locks[g], KeepsOne);
    case Detach(g) => SumUpdate(s.locks, g, s'.locks[g], KeepsOne);
    case WrapUnlocked => SumAppend(s.locks, Lock(true, false, None), KeepsOne);
    case _ => SumAppend(s.locks, NEW_OWNER, KeepsOne);
  }

  lemma {:induction false} HistoryInv(policy: Policy, desired: nat, n: nat, systems: seq<System>,
                                      moves: seq<Move>, k: nat)
    requires IsHistory(policy, desired, n, systems, moves) && k < |systems|
    ensures SystemInv(policy, desired, systems[k])
  {
    if k == 0 {
      InitInv(policy, desired, n);
    } else {
      HistoryInv(policy, desired, n, systems, moves, k - 1);
      MoveKeepsInv(policy, desired, systems[k - 1], moves[k - 1]);
    }
  }

  /** Where every initial permit is, in every reachable state. */
  lemma PermitsConserved(policy: Policy, desired: nat, n: nat, systems: seq<System>, moves: seq<Move>, k: nat)
    requires IsHistory(policy, desired, n, systems, moves) && k < |systems|
    ensures var s := systems[k];
            && desired == Max(0, s.sem.count) + Stranded(policy, s.sem) + s.sem.missed
                          + Keeping(s) + s.detached + Unwrapped(s)
            && desired == s.sem.count + Waiters(s.sem) + Keeping(s) + s.detached + Unwrapped(s)
            && Unwrapped(s) >= 0 && Stranded(policy, s.sem) >= 0 && Keeping(s) >= 0
  {
    HistoryInv(policy, desired, n, systems, moves, k);
    StrandedNonNegative(policy, systems[k].sem);
    FlightsNonNegative(systems[k].sem);
    SumNonNegative(systems[k].locks, KeepsOne);
  }

  /** Owners are those that keep their permit and those in the middle of `unlock`. */
  lemma {:induction false} OwnersSplit(locks: seq<Lock>)
    ensures Sum(locks, OwnsOne) == Sum(locks, KeepsOne) + Sum(locks, ReturnsOne)
  {
    if locks != [] {
      OwnersSplit(locks[1..]);
    }
  }

  lemma TwoKeepers(locks: seq<Lock>, g: nat, h: nat)
    requires g < h < |locks| && Keeps(locks[g]) && Keeps(locks[h])
    ensures Sum(locks, KeepsOne) >= 2
  {
    var rest := locks[g := Lock(false, false, None)];
    SumUpdate(locks, g, Lock(false, false, None), KeepsOne);
    SumNonNegative(rest, KeepsOne);
    assert KeepsOne(rest[h]) == 1;
  }

  /** Besides the guards in the middle of `unlock`, at most `desired` guards own the semaphore at
      once; with one permit, ownership is exclusive among them. */
  lemma MutualExclusion(policy: Policy, desired: nat, n: nat, systems: seq<System>, moves: seq<Move>, k: nat)
    requires IsHistory(policy, desired, n, systems, moves) && k < |systems|
    ensures Owning(systems[k]) - Returning(systems[k]) + systems[k].detached <= desired
    ensures desired == 1 ==>
              forall g, h :: 0 <= g < h < |systems[k].locks| ==>
                !(Keeps(systems[k].locks[g]) && Keeps(systems[k].locks[h]))
  {
    PermitsConserved(policy, desired, n, systems, moves, k);
    var locks := systems[k].locks;
    OwnersSplit(locks);
    forall g, h | 0 <= g < h < |locks| && Keeps(locks[g]) && Keeps(locks[h])
      ensures Keeping(systems[k]) >= 2
    {
      TwoKeepers(locks, g, h);
    }
  }

  /** The permits that no guard keeps: free, stranded, lost to an early dequeue, let go of for good,
      or granted and not wrapped yet. */
  function NotKept(policy: Policy, s: System): int {
    Max(0, s.sem.count) + Stranded(policy, s.sem) + s.sem.missed + s.detached + Unwrapped(s)
  }

  /** Exactly when no more guards than permits own the semaphore, those in the middle of `unlock`
      included: when there are at least as many permits that no guard keeps. With one permit that is
      when no two guards own it. */
  lemma OwnersWithinIff(policy: Policy, desired: nat, n: nat, systems: seq<System>, moves: seq<Move>, k: nat)
    requires IsHistory(policy, desired, n, systems, moves) && k < |systems|
    ensures var s := systems[k];
            && (Owning(s) <= desired <==> Returning(s) <= NotKept(policy, s))
            && (desired == 1 ==> (Exclusive(s.locks) <==> Returning(s) <= NotKept(policy, s)))
  {
    PermitsConserved(policy, desired, n, systems, moves, k);
    OwnersSplit(systems[k].locks);
    ExclusiveIff(systems[k].locks);
  }

  /** No two guards answer that they own the semaphore. */
  ghost predicate Exclusive(locks: seq<Lock>) {
    forall g, h :: 0 <= g < h < |locks| ==> !(Owns(locks[g]) && Owns(locks[h]))
  }

  lemma {:induction false} ExclusiveIff(locks: seq<Lock>)
    ensures Exclusive(locks) <==> Sum(locks, OwnsOne) <= 1
  {
    if locks != [] {
      var rest := locks[1..];
      ExclusiveIff(rest);
      SumNonNegative(rest, OwnsOne);
      assert forall g :: 0 < g < |locks| ==> locks[g] == rest[g - 1];
      if Exclusive(rest) && !Exclusive(locks) {
        var g, h :| 0 <= g < h < |locks| && Owns(locks[g]) && Owns(locks[h]);
        assert g == 0 && OwnsOne(rest[h - 1]) == 1;
      }
      if Exclusive(locks) {
        assert forall g, h :: 0 <= g < h < |rest| ==> rest[g] == locks[g + 1] && rest[h] == locks[h + 1];
        if Owns(locks[0]) {
          assert forall g :: 0 <= g < |rest| ==> OwnsOne(rest[g]) == 0;
        }
      }
    }
  }

  lemma More(policy: Policy, desired: nat, n: nat, systems: seq<System>, moves: seq<Move>, m: Move, s: System)
      returns (systems': seq<System>, moves': seq<Move>)
    requires IsHistory(policy, desired, n, systems, moves)
    requires CanMove(systems[|moves|], m) && s == Make(policy, systems[|moves|], m)
    ensures systems' == systems + [s] && moves' == moves + [m] && systems'[|moves'|] == s
    ensures IsHistory(policy, desired, n, systems', moves')
  {
    systems', moves' := systems + [s], moves + [m];
  }

  /** The exception is real: `unlock` returns the permit before it clears the pointer, so for a
      moment two guards can answer that they own the only permit. */
  lemma UnlockingOverlaps(policy: Policy) returns (systems: seq<System>, moves: seq<Move>)
    ensures IsHistory(policy, 1, 1, systems, moves) && |systems[|moves|].locks| == 2
    ensures Owns(systems[|moves|].locks[0]) && Owns(systems[|moves|].locks[1])
  {
    var took := TryTook(1);
    systems, moves := TakeWrapUnlock(policy);
    systems, moves := More(policy, 1, 1, systems, moves, Step(TryLoad(0)),
      System(State(1, multiset{}, [], 0, [Trying(1)], [took, Released(0, 1)]), [Lock(true, true, Some(0))], 0, 1, 0));
    var s := State(0, multiset{}, [], 0, [SemaphoreProtocol.Idle], [took, Released(0, 1), took]);
    systems, moves := More(policy, 1, 1, systems, moves, Step(TryStep(0)),
      System(s, [Lock(true, true, Some(0))], 0, 1, 0));
    CountsTwo(s);
    systems, moves := More(policy, 1, 1, systems, moves, WrapTry,
      System(s, [Lock(true, true, Some(0)), NEW_OWNER], 0, 2, 0));
  }

  lemma CountsTwo(s: State)
    requires s.log == [TryTook(1), Released(0, 1), TryTook(1)]
    ensures TryTotal(s) == 2
  {
    assert s.log == [TryTook(1), Released(0, 1)] + [TryTook(1)];
    SumAppend([TryTook(1), Released(0, 1)], TryTook(1), TryCount);
    assert [TryTook(1), Released(0, 1)] == [TryTook(1)] + [Released(0, 1)];
    SumAppend([TryTook(1)], Released(0, 1), TryCount);
    assert Sum([TryTook(1)], TryCount) == 1;
  }

  lemma TakeWrapUnlock(policy: Policy) returns (systems: seq<System>, moves: seq<Move>)
    ensures IsHistory(policy, 1, 1, systems, moves)
    ensures systems[|moves|] ==
              System(State(1, multiset{}, [], 0, [SemaphoreProtocol.Idle], [TryTook(1), Released(0, 1)]),
                     [Lock(true, true, Some(0))], 0, 1, 0)
  {
    var s := State(0, multiset{}, [], 0, [SemaphoreProtocol.Idle], [TryTook(1)]);
    systems, moves := TakeOne(policy);
    assert TryTotal(s) == 1;
    systems, moves := More(policy, 1, 1, systems, moves, WrapTry, System(s, [NEW_OWNER], 0, 1, 0));
    systems, moves := More(policy, 1, 1, systems, moves, Unlock(0, 0),
      System(State(1, multiset{}, [], 0, [SemaphoreProtocol.Idle], [TryTook(1), Released(0, 1)]),
             [Lock(true, true, Some(0))], 0, 1, 0));
  }

  lemma TakeOne(policy: Policy) returns (systems: seq<System>, moves: seq<Move>)
    ensures IsHistory(policy, 1, 1, systems, moves)
    ensures systems[|moves|] == System(State(0, multiset{}, [], 0, [SemaphoreProtocol.Idle], [TryTook(1)]), [], 0, 0, 0)
  {
    systems, moves := [System(Init(1, 1), [], 0, 0, 0)], [];
    systems, moves := More(policy, 1, 1, systems, moves, Step(TryLoad(0)),
      System(State(1, multiset{}, [], 0, [Trying(1)], []), [], 0, 0, 0));
    systems, moves := More(policy, 1, 1, systems, moves, Step(TryStep(0)),
      System(State(0, multiset{}, [], 0, [SemaphoreProtocol.Idle], [TryTook(1)]), [], 0, 0, 0));
  }

  /** A guard that has begun to return its permit, or has none, never has one again, so it returns
      its permit at most once. */
  lemma {:induction false} LetGoForGood(policy: Policy, desired: nat, n: nat, systems: seq<System>, moves: seq<Move>,
                                        g: nat, j: nat, k: nat)
    requires IsHistory(policy, desired, n, systems, moves) && j <= k < |systems|
    requires g < |systems[j].locks| && !Keeps(systems[j].locks[g])
    ensures g < |systems[k].locks| && !Keeps(systems[k].locks[g])
    ensures k < |moves| && moves[k].Unlock? ==> moves[k].g != g
  {
    if j < k {
      LetGoForGood(policy, desired, n, systems, moves, g, j, k - 1);
    }
  }
}

/** tcx::poll_service: registration as it is written, and the round of polling it intends. */
module PollService {
  import opened Collections
  import opened PollRegistry

  /** What the system call answers: an error, or the events that happened at each entry. */
  datatype Answer = Failed | Happened(revents: seq<int>)

  /** How `poll` ended: with an exception of its own, normally, or with a callback's exception. */
  datatype Outcome = SystemError | Done | Escaped

  /** `std::lower_bound` over the descriptors. */
  method LowerBound(fds: seq<PollFd>, fd: int) returns (first: nat)
    requires Sorted(fds)
    ensures IsLowerBound(fds, fd, first)
  {
    first := 0;
    var count := |fds|;
    while count > 0
      invariant 0 <= count && first + count <= |fds|
      invariant forall i :: 0 <= i < first ==> fds[i].fd < fd
      invariant forall i :: first + count <= i < |fds| ==> fds[i].fd >= fd
    {
      var step := count / 2;
      if fds[first + step].fd < fd {
        first, count := first + step + 1, count - (step + 1);
      } else {
        count := step;
      }
    }
  }

  /** A new descriptor and its completion, at mirrored places of the two vectors. */
  ghost predicate InsertedAt(fds: seq<PollFd>, completions: seq<Callback>, e: PollFd, f: Callback,
                             fds': seq<PollFd>, completions': seq<Callback>)
  {
    exists p :: 0 <= p <= |fds| == |completions|
                && fds' == fds[..p] + [e] + fds[p..]
                && completions' == completions[..|fds| - p] + [f] + completions[|fds| - p..]
  }

  class Service {
    var fds: seq<PollFd>
    var completions: seq<Callback>

    ghost predicate Valid()
      reads this
    {
      Sorted(fds) && |completions| == |fds|
    }

    ghost function Registered(): map<int, Entry>
      reads this
      requires Valid()
    {
      Contents(fds, completions)
    }

    constructor ()
      ensures Valid() && Registered() == map[]
    {
      fds, completions := [], [];
    }

    /** Map insertion, refused if and only if the descriptor is registered: the descriptor goes to its
        place, and its completion as far from the start as that place is from the end. */
    method AsyncPollAdd(fd: int, events: int, f: Callback) returns (added: bool)
      requires Valid()
      modifies this
      ensures Valid() && (added <==> fd !in old(Registered()))
      ensures added ==> Registered() == old(Registered())[fd := Entry(events, f)]
      ensures added ==> InsertedAt(old(fds), old(completions), PollFd(fd, events), f, fds, completions)
      ensures !added ==> fds == old(fds) && completions == old(completions) && Registered() == old(Registered())
    {
      var it := LowerBound(fds, fd);
      FoundIff(fds, completions, fd, it);
      if it != |fds| && fds[it].fd == fd {
        return false;
      }
      Insert(it, PollFd(fd, events), f);
      return true;
    }

    /** Puts a descriptor at its place and its completion as far from the start as that place is
        from the end. */
    method Insert(it: nat, e: PollFd, f: Callback)
      requires Valid() && IsLowerBound(fds, e.fd, it) && (it < |fds| ==> fds[it].fd != e.fd)
      modifies this
      ensures Valid() && Registered() == old(Registered())[e.fd := Entry(e.events, f)]
      ensures InsertedAt(old(fds), old(completions), e, f, fds, completions)
    {
      InsertionIsMapInsertion(fds, completions, it, e, f);
      var index := |fds| - it;
      fds := Inserted(fds, it, e);
      completions := Inserted(completions, index, f);
      assert fds == old(fds)[..it] + [e] + old(fds)[it..];
    }

    /** Calling a completion: it registers descriptors until, unless it is lenient, one is refused. */
    method Invoke(f: Callback) returns (threw: bool)
      requires Valid()
      modifies this
      ensures Valid() && Registered() == AddedAll(old(Registered()), f.adds, f.lenient)
      ensures threw == Throws(old(Registered()), f)
      ensures Handled(old(Registered()), f, Registered(), threw)
    {
      HandlerMeaning(Registered(), f);
      var i := 0;
      while i < |f.adds|
        invariant 0 <= i <= |f.adds| && Valid()
        invariant AddedAll(Registered(), f.adds[i..], f.lenient) == AddedAll(old(Registered()), f.adds, f.lenient)
        invariant !f.lenient ==> Refuses(Registered(), f.adds[i..]) == Refuses(old(Registered()), f.adds)
      {
        var added := AsyncPollAdd(f.adds[i].fd, f.adds[i].events, f.adds[i].f);
        assert f.adds[i..][1..] == f.adds[i + 1..];
        if !added && !f.lenient {
          return true;
        }
        i := i + 1;
      }
      return false;
    }

    /** Takes the descriptor at `p` and its completion out of both vectors. */
    method Take(p: nat) returns (f: Callback)
      requires Valid() && p < |fds|
      modifies this
      ensures Valid() && Registered() == old(Registered()) - {old(fds)[p].fd}
      ensures old(fds)[p].fd in old(Registered()) && f == old(Registered())[old(fds)[p].fd].f
    {
      assert fds[p].fd in Registered();
      ErasureIsMapRemoval(fds, completions, p);
      var index := Mirror(|fds|, p);
      fds := Erased(fds, p);
      f := completions[index];
      completions := Erased(completions, index);
    }

    /** Takes out the completion of a ready descriptor and calls it. */
    method Fire(fd: int) returns (f: Callback, threw: bool)
      requires Valid() && fd in Registered()
      modifies this
      ensures Valid() && f == old(Registered())[fd].f
      ensures Registered() == AddedAll(old(Registered()) - {fd}, f.adds, f.lenient)
      ensures threw == Throws(old(Registered()) - {fd}, f)
      ensures Handled(old(Registered()) - {fd}, f, Registered(), threw)
    {
      var it := LowerBound(fds, fd);
      FoundIff(fds, completions, fd, it);
      f := Take(it);
      threw := Invoke(f);
    }

    /** A round of polling, as intended: every ready entry of the snapshot, in order, has its own
        completion taken out and called, once, with its own events; an exception from one of them
        ends the round there. */
    method Poll(answer: Answer) returns (end: Outcome, fired: seq<Firing>)
      requires Valid() && (answer.Happened? ==> |answer.revents| == |fds|)
      modifies this
      ensures Valid() && (end.SystemError? <==> answer.Failed?)
      ensures answer.Failed? ==> fired == [] && fds == old(fds) && completions == old(completions)
      ensures answer.Happened? ==> Snapshotted(old(fds), old(Registered()))
      ensures answer.Happened? ==>
                IsRound(old(Registered()), Due(old(Registered()), old(fds), answer.revents, |old(fds)|), fired,
                        end.Escaped?)
      ensures answer.Happened? ==> Registered() == AfterFirings(old(Registered()), fired)
      ensures answer.Happened? ==> exists regs :: IsTrace(regs, old(Registered()), fired, Registered(), end.Escaped?)
      ensures answer.Happened? && AllQuiet(old(Registered())) ==>
                end.Done? && fired == Due(old(Registered()), old(fds), answer.revents, |old(fds)|)
    {
      if answer.Failed? {
        return SystemError, [];
      }
      var snapshot := fds;
      SnapshotRegistered(fds, completions);
      var threw;
      ghost var start := Registered();
      fired, threw := Dispatch(snapshot, answer.revents);
      ghost var regs := RoundTrace(start, snapshot, answer.revents, fired, threw);
      if AllQuiet(start) {
        QuietRound(start, snapshot, answer.revents, fired, threw);
      }
      return if threw then Escaped else Done, fired;
    }

    /** The loop of `poll` over its snapshot. */
    method Dispatch(snapshot: seq<PollFd>, revents: seq<int>) returns (fired: seq<Firing>, threw: bool)
      requires Valid() && |revents| == |snapshot| && Sorted(snapshot) && Snapshotted(snapshot, Registered())
      modifies this
      ensures Valid() && Finished(old(Registered()), Registered(), snapshot, revents, fired, threw)
    {
      fired, threw := [], false;
      ghost var start := Registered();
      ghost var now := Registered();
      var i := 0;
      while i < |snapshot| && !threw
        invariant 0 <= i <= |snapshot| && Valid() && now == Registered()
        invariant !threw ==> Underway(start, now, snapshot, revents, i, fired)
        invariant threw ==> Finished(start, now, snapshot, revents, fired, true)
      {
        fired, threw := Handle(snapshot, revents, i, fired, start);
        now := Registered();
        i := i + 1;
      }
      if !threw {
        RoundEnds(start, now, snapshot, revents, fired);
      }
    }

    /** The loop's body: entry `i`, if it is ready. */
    method Handle(snapshot: seq<PollFd>, revents: seq<int>, i: nat, fired: seq<Firing>, ghost start: map<int, Entry>)
      returns (more: seq<Firing>, threw: bool)
      requires Valid() && i < |snapshot| == |revents| && Sorted(snapshot)
      requires Underway(start, Registered(), snapshot, revents, i, fired)
      modifies this
      ensures Valid()
      ensures !threw ==> Underway(start, Registered(), snapshot, revents, i + 1, more)
      ensures threw ==> Finished(start, Registered(), snapshot, revents, more, true)
    {
      more, threw := fired, false;
      ghost var now := Registered();
      if revents[i] != 0 {
        RoundFires(start, now, snapshot, revents, i, fired);
        var f;
        f, threw := Fire(snapshot[i].fd);
        more := fired + [Firing(snapshot[i].fd, f, revents[i])];
      } else {
        RoundSkips(start, now, snapshot, revents, i, fired);
      }
    }
  }

  /** The round is over. */
  ghost predicate Finished(start: map<int, Entry>, now: map<int, Entry>, snapshot: seq<PollFd>, revents: seq<int>,
                           fired: seq<Firing>, threw: bool)
    requires |snapshot| == |revents|
  {
    && Snapshotted(snapshot, start)
    && IsRound(start, Due(start, snapshot, revents, |snapshot|), fired, threw)
    && now == AfterFirings(start, fired)
  }

  /** The first `i` entries of the snapshot have been dealt with, and no callback threw. */
  ghost predicate Underway(start: map<int, Entry>, now: map<int, Entry>, snapshot: seq<PollFd>, revents: seq<int>,
                           i: nat, fired: seq<Firing>)
    requires i <= |snapshot| == |revents|
  {
    && Snapshotted(snapshot, start)
    && fired == Due(start, snapshot, revents, i)
    && now == AfterFirings(start, fired)
    && StillThere(start, now, snapshot, i)
    && Quiet(start, fired)
  }

  ghost predicate Quiet(start: map<int, Entry>, fired: seq<Firing>) {
    forall j :: 0 <= j <= |fired| ==> !Escapes(start, fired[..j])
  }

  lemma RoundSkips(start: map<int, Entry>, now: map<int, Entry>, snapshot: seq<PollFd>, revents: seq<int>,
                   i: nat, fired: seq<Firing>)
    requires i < |snapshot| == |revents| && Underway(start, now, snapshot, revents, i, fired) && revents[i] == 0
    ensures Underway(start, now, snapshot, revents, i + 1, fired)
  {}

  lemma RoundFires(start: map<int, Entry>, now: map<int, Entry>, snapshot: seq<PollFd>, revents: seq<int>,
                   i: nat, fired: seq<Firing>)
    requires i < |snapshot| == |revents| && Sorted(snapshot) && Underway(start, now, snapshot, revents, i, fired)
    requires revents[i] != 0
    ensures snapshot[i].fd in now
    ensures var f := now[snapshot[i].fd].f; var next := fired + [Firing(snapshot[i].fd, f, revents[i])];
            var after := AddedAll(now - {snapshot[i].fd}, f.adds, f.lenient);
            && (Throws(now - {snapshot[i].fd}, f) ==> Finished(start, after, snapshot, revents, next, true))
            && (!Throws(now - {snapshot[i].fd}, f) ==> Underway(start, after, snapshot, revents, i + 1, next))
  {
    var f := now[snapshot[i].fd].f;
    var next := fired + [Firing(snapshot[i].fd, f, revents[i])];
    assert next[..|next| - 1] == fired;
    FiringKeepsTheRest(start, now, snapshot, i, f);
    OneMoreFired(start, fired, next);
    assert next == Due(start, snapshot, revents, i + 1);
    DuePrefix(start, snapshot, revents, i + 1, |snapshot|);
    assert next[..|next|] == next;
  }

  lemma RoundEnds(start: map<int, Entry>, now: map<int, Entry>, snapshot: seq<PollFd>, revents: seq<int>,
                  fired: seq<Firing>)
    requires |snapshot| == |revents| && Underway(start, now, snapshot, revents, |snapshot|, fired)
    ensures Finished(start, now, snapshot, revents, fired, false)
  {
    assert fired[..|fired|] == fired;
  }

  lemma OneMoreFired(start: map<int, Entry>, fired: seq<Firing>, next: seq<Firing>)
    requires Quiet(start, fired) && |next| == |fired| + 1 && next[..|fired|] == fired
    ensures forall j :: 0 <= j < |next| ==> !Escapes(start, next[..j])
    ensures !Escapes(start, next) ==> Quiet(start, next)
  {
    forall j | 0 <= j < |next| ensures !Escapes(start, next[..j]) {
      assert next[..j] == fired[..j];
    }
    assert next[..|next|] == next;
  }

  lemma {:induction false} DuePrefix(m: map<int, Entry>, snapshot: seq<PollFd>, revents: seq<int>, j: nat, k: nat)
    requires j <= k <= |snapshot| == |revents| && Snapshotted(snapshot, m)
    ensures Due(m, snapshot, revents, j) <= Due(m, snapshot, revents, k)
  {
    if j < k {
      DuePrefix(m, snapshot, revents, j, k - 1);
    }
  }

  lemma SnapshotRegistered(fds: seq<PollFd>, completions: seq<Callback>)
    requires Sorted(fds) && |completions| == |fds|
    ensures Snapshotted(fds, Contents(fds, completions))
  {
    forall i | 0 <= i < |fds| ensures fds[i].fd in Contents(fds, completions) {
      RowInContents(fds, completions, i);
    }
  }

  /** Firing one descriptor, whatever its callback registers, leaves the later ones as they were. */
  lemma FiringKeepsTheRest(start: map<int, Entry>, now: map<int, Entry>, snapshot: seq<PollFd>, i: nat, f: Callback)
    requires Sorted(snapshot) && i < |snapshot| && StillThere(start, now, snapshot, i)
    ensures StillThere(start, AddedAll(now - {snapshot[i].fd}, f.adds, f.lenient), snapshot, i + 1)
  {
    AddedAllKeeps(now - {snapshot[i].fd}, f.adds, f.lenient);
  }

  ghost predicate Snapshotted(snapshot: seq<PollFd>, m: map<int, Entry>) {
    forall i :: 0 <= i < |snapshot| ==> snapshot[i].fd in m
  }

  /** The entries of the snapshot not handled yet are still registered as they were. */
  ghost predicate StillThere(start: map<int, Entry>, now: map<int, Entry>, snapshot: seq<PollFd>, i: nat) {
    forall j :: i <= j < |snapshot| ==>
      snapshot[j].fd in start && snapshot[j].fd in now && now[snapshot[j].fd] == start[snapshot[j].fd]
  }

  lemma FiresAppend(fired: seq<Firing>, d: Firing, fd: int)
    ensures Fires(fired + [d], fd) <==> Fires(fired, fd) || d.fd == fd
  {
    var more := fired + [d];
    forall i | 0 <= i < |fired| && fired[i].fd == fd ensures Fires(more, fd) {
      assert more[i].fd == fd;
    }
    assert more[|fired|] == d;
    forall i | 0 <= i < |more| && more[i].fd == fd ensures Fires(fired, fd) || d.fd == fd {
      if i != |fired| {
        assert fired[i] == more[i];
      }
    }
  }

  ghost predicate WasReady(snapshot: seq<PollFd>, revents: seq<int>, fd: int)
    requires |snapshot| == |revents|
  {
    exists i :: 0 <= i < |snapshot| && revents[i] != 0 && snapshot[i].fd == fd
  }

  /** What is due in a round is exactly what was ready. */
  lemma {:induction false} DueIsReady(m: map<int, Entry>, snapshot: seq<PollFd>, revents: seq<int>, k: nat, fd: int)
    requires k <= |snapshot| == |revents| && Snapshotted(snapshot, m) && Sorted(snapshot)
    ensures Fires(Due(m, snapshot, revents, k), fd) <==>
              exists i :: 0 <= i < k && revents[i] != 0 && snapshot[i].fd == fd
  {
    if k > 0 {
      DueIsReady(m, snapshot, revents, k - 1, fd);
      var before, due := Due(m, snapshot, revents, k - 1), Due(m, snapshot, revents, k);
      if revents[k - 1] != 0 {
        var d := Firing(snapshot[k - 1].fd, m[snapshot[k - 1].fd].f, revents[k - 1]);
        assert due == before + [d];
        FiresAppend(before, d, fd);
      } else {
        assert due == before;
      }
    }
  }

  ghost predicate FromSnapshot(d: Firing, m: map<int, Entry>, snapshot: seq<PollFd>, revents: seq<int>, k: nat)
    requires k <= |snapshot| == |revents|
  {
    && d.fd in m && d.f == m[d.fd].f && d.revents != 0
    && exists p :: 0 <= p < k && snapshot[p].fd == d.fd && revents[p] == d.revents
  }

  ghost predicate OnceEach(due: seq<Firing>, m: map<int, Entry>, snapshot: seq<PollFd>, revents: seq<int>, k: nat)
    requires k <= |snapshot| == |revents|
  {
    && (forall i, j :: 0 <= i < j < |due| ==> due[i].fd < due[j].fd)
    && (forall i :: 0 <= i < |due| ==> FromSnapshot(due[i], m, snapshot, revents, k))
  }

  /** Exactly once: what fires comes from a ready entry, with that descriptor's own completion and
      events, and no descriptor fires twice in a round. */
  lemma {:induction false} DueOnce(m: map<int, Entry>, snapshot: seq<PollFd>, revents: seq<int>, k: nat)
    requires k <= |snapshot| == |revents| && Snapshotted(snapshot, m) && Sorted(snapshot)
    ensures OnceEach(Due(m, snapshot, revents, k), m, snapshot, revents, k)
  {
    if k > 0 {
      DueOnce(m, snapshot, revents, k - 1);
      var before, due := Due(m, snapshot, revents, k - 1), Due(m, snapshot, revents, k);
      forall i | 0 <= i < |due|
        ensures FromSnapshot(due[i], m, snapshot, revents, k)
        ensures i < |before| ==> due[i].fd < snapshot[k - 1].fd
      {
        if i < |before| {
          assert FromSnapshot(before[i], m, snapshot, revents, k - 1);
        }
      }
    }
  }

  /** After a round, complete or ended by an exception: every entry that did not fire is still there
      with its completion, whatever callbacks registered, and every other registration was made by a
      callback that fired. What did not fire was not ready or came after the exception. */
  lemma RoundMeaning(m: map<int, Entry>, snapshot: seq<PollFd>, revents: seq<int>, fired: seq<Firing>,
                     escaped: bool, fd: int)
    requires |snapshot| == |revents| && Snapshotted(snapshot, m) && Sorted(snapshot)
    requires IsRound(m, Due(m, snapshot, revents, |snapshot|), fired, escaped)
    ensures var m' := AfterFirings(m, fired);
            && (fd in m && !Fires(fired, fd) ==> fd in m' && m'[fd] == m[fd])
            && (fd in m' && !(fd in m && !Fires(fired, fd)) ==> MadeBy(fired, fd, m'[fd]))
    ensures Fires(fired, fd) ==> WasReady(snapshot, revents, fd)
    ensures WasReady(snapshot, revents, fd) && !Fires(fired, fd) ==> escaped && fired[|fired| - 1].fd < fd
  {
    var due := Due(m, snapshot, revents, |snapshot|);
    DueIsReady(m, snapshot, revents, |snapshot|, fd);
    RoundEffect(m, fired, fd);
    DueOnce(m, snapshot, revents, |snapshot|);
    if Fires(fired, fd) {
      var i :| 0 <= i < |fired| && fired[i].fd == fd;
      assert due[i].fd == fd;
    }
    if Fires(due, fd) {
      var i :| 0 <= i < |due| && due[i].fd == fd;
      if i < |fired| {
        assert fired[i].fd == fd;
      } else if fired != [] {
        assert fired[|fired| - 1] == due[|fired| - 1];
      }
    }
  }

  /** The registrations in the course of a round. */
  lemma RoundTrace(m: map<int, Entry>, snapshot: seq<PollFd>, revents: seq<int>, fired: seq<Firing>, escaped: bool)
      returns (regs: seq<map<int, Entry>>)
    requires |snapshot| == |revents| && Snapshotted(snapshot, m) && Sorted(snapshot)
    requires IsRound(m, Due(m, snapshot, revents, |snapshot|), fired, escaped)
    ensures IsTrace(regs, m, fired, AfterFirings(m, fired), escaped)
  {
    regs := seq(|fired| + 1, j requires 0 <= j <= |fired| => AfterFirings(m, fired[..j]));
    assert fired[..|fired|] == fired;
    forall j: nat | j < |fired| ensures Fired(regs[j], fired[j], regs[j + 1], escaped && j == |fired| - 1) {
      FiringMeaning(m, snapshot, revents, fired, escaped, j);
    }
  }

  lemma FiringMeaning(m: map<int, Entry>, snapshot: seq<PollFd>, revents: seq<int>, fired: seq<Firing>, escaped: bool,
                      j: nat)
    requires |snapshot| == |revents| && Snapshotted(snapshot, m) && Sorted(snapshot) && j < |fired|
    requires IsRound(m, Due(m, snapshot, revents, |snapshot|), fired, escaped)
    ensures Fired(AfterFirings(m, fired[..j]), fired[j], AfterFirings(m, fired[..j + 1]), escaped && j == |fired| - 1)
  {
    StillItsOwn(m, snapshot, revents, fired, escaped, j);
    OneFiring(m, fired[..j + 1], j);
    ThrewOrNot(m, Due(m, snapshot, revents, |snapshot|), fired, escaped, j);
  }

  /** A descriptor that fires is still registered as it was at the start. */
  lemma StillItsOwn(m: map<int, Entry>, snapshot: seq<PollFd>, revents: seq<int>, fired: seq<Firing>, escaped: bool,
                    j: nat)
    requires |snapshot| == |revents| && Snapshotted(snapshot, m) && Sorted(snapshot) && j < |fired|
    requires IsRound(m, Due(m, snapshot, revents, |snapshot|), fired, escaped)
    ensures fired[j].fd in AfterFirings(m, fired[..j]) && AfterFirings(m, fired[..j])[fired[j].fd].f == fired[j].f
  {
    var due := Due(m, snapshot, revents, |snapshot|);
    DueOnce(m, snapshot, revents, |snapshot|);
    assert fired[j] == due[j] && FromSnapshot(due[j], m, snapshot, revents, |snapshot|);
    assert forall i :: 0 <= i < j ==> fired[..j][i] == due[i];
    RoundEffect(m, fired[..j], fired[j].fd);
  }

  lemma OneFiring(m: map<int, Entry>, fired: seq<Firing>, j: nat)
    requires |fired| == j + 1
    ensures AfterFirings(m, fired)
              == AddedAll(AfterFirings(m, fired[..j]) - {fired[j].fd}, fired[j].f.adds, fired[j].f.lenient)
    ensures Handled(AfterFirings(m, fired[..j]) - {fired[j].fd}, fired[j].f, AfterFirings(m, fired), Escapes(m, fired))
  {
    HandlerMeaning(AfterFirings(m, fired[..j]) - {fired[j].fd}, fired[j].f);
  }

  lemma ThrewOrNot(m: map<int, Entry>, due: seq<Firing>, fired: seq<Firing>, escaped: bool, j: nat)
    requires IsRound(m, due, fired, escaped) && j < |fired|
    ensures fired[..j + 1][..j] == fired[..j] && fired[..j + 1][j] == fired[j]
    ensures Escapes(m, fired[..j + 1]) <==> escaped && j == |fired| - 1
  {
    if j == |fired| - 1 {
      assert fired[..j + 1] == fired;
    } else {
      assert !Escapes(m, fired[..j + 1]);
    }
  }

  /** No registered callback can throw: it is lenient, or asks for nothing. */
  ghost predicate AllQuiet(m: map<int, Entry>) {
    forall fd :: fd in m ==> m[fd].f.lenient || m[fd].f.adds == []
  }

  /** Then a round fires all that is due, and ends normally. */
  lemma QuietRound(m: map<int, Entry>, snapshot: seq<PollFd>, revents: seq<int>, fired: seq<Firing>, escaped: bool)
    requires |snapshot| == |revents| && Snapshotted(snapshot, m) && Sorted(snapshot) && AllQuiet(m)
    requires IsRound(m, Due(m, snapshot, revents, |snapshot|), fired, escaped)
    ensures !escaped && fired == Due(m, snapshot, revents, |snapshot|)
  {
    if fired != [] {
      var due := Due(m, snapshot, revents, |snapshot|);
      DueOnce(m, snapshot, revents, |snapshot|);
      assert fired[|fired| - 1] == due[|fired| - 1];
      assert FromSnapshot(due[|fired| - 1], m, snapshot, revents, |snapshot|);
    }
  }

  /** A round ends in an exception if and only if the last callback it called is not lenient and one
      of its requests is for a descriptor registered at that moment, or asked for earlier in its list. */
  lemma EscapesIff(regs: seq<map<int, Entry>>, m: map<int, Entry>, fired: seq<Firing>, m': map<int, Entry>,
                   escaped: bool)
    requires IsTrace(regs, m, fired, m', escaped) && fired != []
    ensures var n := |fired| - 1; var f, now := fired[n].f, regs[n] - {fired[n].fd};
            escaped <==>
              !f.lenient &&
              exists i :: 0 <= i < |f.adds|
                && (f.adds[i].fd in now || exists j :: 0 <= j < i && f.adds[j].fd == f.adds[i].fd)
  {
    var n := |fired| - 1;
    var f, now := fired[n].f, regs[n] - {fired[n].fd};
    assert Fired(regs[n], fired[n], regs[n + 1], escaped && n == |fired| - 1);
    assert forall i :: 0 <= i < |f.adds| ==>
      (Taken(now, f.adds, i) <==> f.adds[i].fd in now || exists j :: 0 <= j < i && f.adds[j].fd == f.adds[i].fd);
  }
}

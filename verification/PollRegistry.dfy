/** The two parallel vectors of tcx::poll_service, as values. The descriptors are strictly
    sorted; the completion of the descriptor at position `i` of `n` stands at the mirror
    position `n - 1 - i`. Together they are a finite map from descriptors to completions. */
module PollRegistry {
  import opened Collections

  datatype PollFd = PollFd(fd: int, events: int)

  /** A completion handler, known by the registrations it makes when it is called. A refused
      registration throws; a lenient handler goes on with the next, any other lets the exception out. */
  datatype Callback = Callback(id: nat, adds: seq<Request>, lenient: bool)

  datatype Request = Request(fd: int, events: int, f: Callback)

  datatype Entry = Entry(events: int, f: Callback)

  ghost predicate Sorted(fds: seq<PollFd>) {
    forall i, j :: 0 <= i < j < |fds| ==> fds[i].fd < fds[j].fd
  }

  function Mirror(n: nat, i: nat): nat
    requires i < n
  {
    n - 1 - i
  }

  /** What the vectors stand for. */
  ghost function Contents(fds: seq<PollFd>, completions: seq<Callback>): map<int, Entry>
    requires Sorted(fds) && |completions| == |fds|
  {
    map i | 0 <= i < |fds| :: fds[i].fd := Entry(fds[i].events, completions[Mirror(|fds|, i)])
  }

  /** `p` is where `fd` is or would be: everything before is smaller, nothing from it on is. */
  ghost predicate IsLowerBound(fds: seq<PollFd>, fd: int, p: nat) {
    && p <= |fds|
    && (forall i :: 0 <= i < p ==> fds[i].fd < fd)
    && (forall i :: p <= i < |fds| ==> fds[i].fd >= fd)
  }

  /** Registered descriptors are found by their position, and only those are registered. */
  lemma FoundIff(fds: seq<PollFd>, completions: seq<Callback>, fd: int, p: nat)
    requires Sorted(fds) && |completions| == |fds| && IsLowerBound(fds, fd, p)
    ensures fd in Contents(fds, completions) <==> p < |fds| && fds[p].fd == fd
  {
    if p < |fds| && fds[p].fd == fd {
      assert fds[p].fd in Contents(fds, completions);
    }
  }

  /** What position `i` of the vectors says. */
  function Row(fds: seq<PollFd>, completions: seq<Callback>, i: nat): (PollFd, Callback)
    requires i < |fds| == |completions|
  {
    (fds[i], completions[Mirror(|fds|, i)])
  }

  lemma RowInContents(fds: seq<PollFd>, completions: seq<Callback>, i: nat)
    requires Sorted(fds) && i < |fds| == |completions|
    ensures var (e, f) := Row(fds, completions, i);
            e.fd in Contents(fds, completions) && Contents(fds, completions)[e.fd] == Entry(e.events, f)
  {
    assert fds[i].fd in Contents(fds, completions);
  }

  lemma InsertedRow(fds: seq<PollFd>, completions: seq<Callback>, p: nat, e: PollFd, f: Callback, i: nat)
    requires |completions| == |fds| && p <= |fds| && i <= |fds|
    ensures Row(Inserted(fds, p, e), Inserted(completions, |fds| - p, f), i)
              == if i < p then Row(fds, completions, i) else if i == p then (e, f) else Row(fds, completions, i - 1)
  {}

  lemma ErasedRow(fds: seq<PollFd>, completions: seq<Callback>, p: nat, i: nat)
    requires |completions| == |fds| && p < |fds| && i < |fds| - 1
    ensures Row(Erased(fds, p), Erased(completions, Mirror(|fds|, p)), i)
              == Row(fds, completions, if i < p then i else i + 1)
  {}

  lemma InsertedSorted(fds: seq<PollFd>, p: nat, e: PollFd)
    requires Sorted(fds) && IsLowerBound(fds, e.fd, p) && (p < |fds| ==> fds[p].fd != e.fd)
    ensures Sorted(Inserted(fds, p, e))
  {
    var fds' := Inserted(fds, p, e);
    assert forall i :: 0 <= i <= |fds| ==> fds'[i] == if i < p then fds[i] else if i == p then e else fds[i - 1];
  }

  lemma ErasedSorted(fds: seq<PollFd>, p: nat)
    requires Sorted(fds) && p < |fds|
    ensures Sorted(Erased(fds, p))
  {
    var fds' := Erased(fds, p);
    assert forall i :: 0 <= i < |fds| - 1 ==> fds'[i] == if i < p then fds[i] else fds[i + 1];
  }

  /** Row `i` of the longer vectors is the new row at `p`, or the old row that it moved from. */
  ghost predicate RowFits(fds: seq<PollFd>, completions: seq<Callback>, fds': seq<PollFd>, completions': seq<Callback>,
                          p: nat, row: (PollFd, Callback), i: nat)
    requires |completions| == |fds| && |completions'| == |fds'| == |fds| + 1 && p <= |fds|
  {
    i < |fds'| ==>
      Row(fds', completions', i)
        == if i < p then Row(fds, completions, i) else if i == p then row else Row(fds, completions, i - 1)
  }

  ghost predicate RowsFit(fds: seq<PollFd>, completions: seq<Callback>, fds': seq<PollFd>, completions': seq<Callback>,
                          p: nat, row: (PollFd, Callback))
  {
    && Sorted(fds) && Sorted(fds') && |completions| == |fds| && |completions'| == |fds'| == |fds| + 1 && p <= |fds|
    && forall i: nat :: RowFits(fds, completions, fds', completions', p, row, i)
  }

  lemma OldRowStays(fds: seq<PollFd>, completions: seq<Callback>, fds': seq<PollFd>, completions': seq<Callback>,
                    p: nat, row: (PollFd, Callback), i: nat)
    requires RowsFit(fds, completions, fds', completions', p, row) && i < |fds|
    ensures var m, m' := Contents(fds, completions), Contents(fds', completions');
            fds[i].fd in m && fds[i].fd in m' && m'[fds[i].fd] == m[fds[i].fd] && fds[i].fd != row.0.fd
  {
    var j := if i < p then i else i + 1;
    assert RowFits(fds, completions, fds', completions', p, row, j);
    assert RowFits(fds, completions, fds', completions', p, row, p);
    RowInContents(fds', completions', j);
    RowInContents(fds, completions, i);
  }

  lemma NewRowIsOldOrNew(fds: seq<PollFd>, completions: seq<Callback>, fds': seq<PollFd>, completions': seq<Callback>,
                         p: nat, row: (PollFd, Callback), i: nat)
    requires RowsFit(fds, completions, fds', completions', p, row) && i < |fds'|
    ensures fds'[i].fd == row.0.fd || fds'[i].fd in Contents(fds, completions)
  {
    assert RowFits(fds, completions, fds', completions', p, row, i);
    if i != p {
      RowInContents(fds, completions, if i < p then i else i - 1);
    }
  }

  /** Vectors whose rows are the old ones and a new one stand for the map with one more entry. */
  lemma OneRowMore(fds: seq<PollFd>, completions: seq<Callback>, fds': seq<PollFd>, completions': seq<Callback>,
                   p: nat, e: PollFd, f: Callback)
    requires RowsFit(fds, completions, fds', completions', p, (e, f))
    ensures Contents(fds', completions') == Contents(fds, completions)[e.fd := Entry(e.events, f)]
  {
    var m, m' := Contents(fds, completions), Contents(fds', completions');
    RowInContents(fds', completions', p);
    assert RowFits(fds, completions, fds', completions', p, (e, f), p);
    forall fd | fd in m ensures fd in m' && m'[fd] == m[fd] && fd != e.fd {
      var i :| 0 <= i < |fds| && fds[i].fd == fd;
      OldRowStays(fds, completions, fds', completions', p, (e, f), i);
    }
    forall fd | fd in m' ensures fd == e.fd || fd in m {
      var i :| 0 <= i < |fds'| && fds'[i].fd == fd;
      NewRowIsOldOrNew(fds, completions, fds', completions', p, (e, f), i);
    }
  }

  /** Inserting a descriptor at its place and its completion at the distance from the end, as
      measured before, is insertion into the map. */
  lemma InsertionIsMapInsertion(fds: seq<PollFd>, completions: seq<Callback>, p: nat, e: PollFd, f: Callback)
    requires Sorted(fds) && |completions| == |fds| && IsLowerBound(fds, e.fd, p)
    requires p < |fds| ==> fds[p].fd != e.fd
    ensures Sorted(Inserted(fds, p, e))
    ensures Contents(Inserted(fds, p, e), Inserted(completions, |fds| - p, f))
              == Contents(fds, completions)[e.fd := Entry(e.events, f)]
  {
    InsertedSorted(fds, p, e);
    var fds', completions' := Inserted(fds, p, e), Inserted(completions, |fds| - p, f);
    forall i: nat ensures RowFits(fds, completions, fds', completions', p, (e, f), i) {
      if i < |fds'| {
        InsertedRow(fds, completions, p, e, f, i);
      }
    }
    OneRowMore(fds, completions, fds', completions', p, e, f);
  }

  /** Erasing a descriptor and the completion at its mirror position is removal from the map. */
  lemma ErasureIsMapRemoval(fds: seq<PollFd>, completions: seq<Callback>, p: nat)
    requires Sorted(fds) && |completions| == |fds| && p < |fds|
    ensures Sorted(Erased(fds, p))
    ensures Contents(Erased(fds, p), Erased(completions, Mirror(|fds|, p)))
              == Contents(fds, completions) - {fds[p].fd}
  {
    ErasedSorted(fds, p);
    ErasedRowsFit(fds, completions, p);
    var fds', completions' := Erased(fds, p), Erased(completions, Mirror(|fds|, p));
    var (e, f) := Row(fds, completions, p);
    OneRowMore(fds', completions', fds, completions, p, e, f);
    AbsentAfterErasure(fds, fds', completions', p);
    PutAndRemove(Contents(fds', completions'), e.fd, Entry(e.events, f));
  }

  lemma PutAndRemove(m: map<int, Entry>, fd: int, e: Entry)
    requires fd !in m
    ensures m[fd := e] - {fd} == m
  {}

  lemma ErasedRowsFit(fds: seq<PollFd>, completions: seq<Callback>, p: nat)
    requires |completions| == |fds| && p < |fds|
    ensures forall i: nat :: RowFits(Erased(fds, p), Erased(completions, Mirror(|fds|, p)), fds, completions, p,
                                     Row(fds, completions, p), i)
  {
    forall i: nat
      ensures RowFits(Erased(fds, p), Erased(completions, Mirror(|fds|, p)), fds, completions, p,
                      Row(fds, completions, p), i)
    {
      if i < |fds| && i != p {
        ErasedRow(fds, completions, p, if i < p then i else i - 1);
      }
    }
  }

  lemma AbsentAfterErasure(fds: seq<PollFd>, fds': seq<PollFd>, completions': seq<Callback>, p: nat)
    requires Sorted(fds) && p < |fds| && fds' == Erased(fds, p) && Sorted(fds') && |completions'| == |fds'|
    ensures fds[p].fd !in Contents(fds', completions')
  {
    forall i | 0 <= i < |fds'| ensures fds'[i].fd != fds[p].fd {
      assert fds'[i] == if i < p then fds[i] else fds[i + 1];
    }
  }

  // ----- What a round of polling should do

  datatype Firing = Firing(fd: int, f: Callback, revents: int)

  /** Registration, refused when the descriptor is already there. */
  function Added(m: map<int, Entry>, r: Request): map<int, Entry> {
    if r.fd in m then m else m[r.fd := Entry(r.events, r.f)]
  }

  /** What a handler's registrations come to. */
  function AddedAll(m: map<int, Entry>, adds: seq<Request>, lenient: bool): map<int, Entry>
    decreases |adds|
  {
    if adds == [] || (adds[0].fd in m && !lenient) then m else AddedAll(Added(m, adds[0]), adds[1..], lenient)
  }

  predicate Refuses(m: map<int, Entry>, adds: seq<Request>)
    decreases |adds|
  {
    adds != [] && (adds[0].fd in m || Refuses(Added(m, adds[0]), adds[1..]))
  }

  predicate Throws(m: map<int, Entry>, f: Callback) { !f.lenient && Refuses(m, f.adds) }

  /** Every ready descriptor of the snapshot, in order, with the completion it had at the start. */
  function Due(m: map<int, Entry>, snapshot: seq<PollFd>, revents: seq<int>, k: nat): seq<Firing>
    requires k <= |snapshot| == |revents| && forall i :: 0 <= i < |snapshot| ==> snapshot[i].fd in m
  {
    if k == 0 then []
    else Due(m, snapshot, revents, k - 1) +
         if revents[k - 1] != 0 then [Firing(snapshot[k - 1].fd, m[snapshot[k - 1].fd].f, revents[k - 1])] else []
  }

  /** Removing each fired descriptor and then making its callback's registrations. */
  function AfterFirings(m: map<int, Entry>, fired: seq<Firing>): map<int, Entry> {
    if fired == [] then m
    else
      var last := fired[|fired| - 1];
      AddedAll(AfterFirings(m, fired[..|fired| - 1]) - {last.fd}, last.f.adds, last.f.lenient)
  }

  /** The last of the fired callbacks threw. */
  predicate Escapes(m: map<int, Entry>, fired: seq<Firing>) {
    fired != [] &&
    var last := fired[|fired| - 1];
    Throws(AfterFirings(m, fired[..|fired| - 1]) - {last.fd}, last.f)
  }

  /** A round fires what is due, in order, up to the first callback that throws, if one does. */
  ghost predicate IsRound(m: map<int, Entry>, due: seq<Firing>, fired: seq<Firing>, escaped: bool) {
    && fired <= due
    && (forall j :: 0 <= j < |fired| ==> !Escapes(m, fired[..j]))
    && (escaped <==> Escapes(m, fired))
    && (!escaped ==> fired == due)
  }

  lemma {:induction false} AddedAllKeeps(m: map<int, Entry>, adds: seq<Request>, lenient: bool)
    ensures var m' := AddedAll(m, adds, lenient);
            && (forall fd :: fd in m ==> fd in m' && m'[fd] == m[fd])
            && (forall fd :: fd in m' && fd !in m ==>
                  exists i :: 0 <= i < |adds| && adds[i].fd == fd && m'[fd] == Entry(adds[i].events, adds[i].f))
    decreases |adds|
  {
    if adds != [] && !(adds[0].fd in m && !lenient) {
      var m1, m' := Added(m, adds[0]), AddedAll(m, adds, lenient);
      AddedAllKeeps(m1, adds[1..], lenient);
      forall fd | fd in m' && fd !in m
        ensures exists i :: 0 <= i < |adds| && adds[i].fd == fd && m'[fd] == Entry(adds[i].events, adds[i].f)
      {
        if fd in m1 {
          assert adds[0].fd == fd;
        } else {
          var j :| 0 <= j < |adds[1..]| && adds[1..][j].fd == fd
                   && m'[fd] == Entry(adds[1..][j].events, adds[1..][j].f);
          assert adds[j + 1] == adds[1..][j];
        }
      }
    }
  }

  // ----- What that means, without following it step by step

  /** Request `i` is for a descriptor that is registered, or that was asked for earlier in the list. */
  ghost predicate Taken(m: map<int, Entry>, adds: seq<Request>, i: nat)
    requires i < |adds|
  {
    adds[i].fd in m || exists j :: 0 <= j < i && adds[j].fd == adds[i].fd
  }

  /** Request `i` is carried out: it is not refused, nor does an earlier refusal end the handler. */
  ghost predicate CarriedOut(m: map<int, Entry>, f: Callback, i: nat)
    requires i < |f.adds|
  {
    !Taken(m, f.adds, i) && (f.lenient || forall k :: 0 <= k < i ==> !Taken(m, f.adds, k))
  }

  /** What calling `f` makes of the registrations `m`: those stay, every request that is carried out
      is added, and nothing else; and it throws if and only if it is not lenient and a request of
      its is refused. */
  ghost predicate Handled(m: map<int, Entry>, f: Callback, m': map<int, Entry>, threw: bool) {
    && (forall fd :: fd in m ==> fd in m' && m'[fd] == m[fd])
    && (forall i :: 0 <= i < |f.adds| && CarriedOut(m, f, i) ==>
          f.adds[i].fd in m' && m'[f.adds[i].fd] == Entry(f.adds[i].events, f.adds[i].f))
    && (forall fd :: fd in m' && fd !in m ==>
          exists i :: 0 <= i < |f.adds| && CarriedOut(m, f, i) && f.adds[i].fd == fd)
    && (threw <==> !f.lenient && exists i :: 0 <= i < |f.adds| && Taken(m, f.adds, i))
  }

  lemma TakenShifts(m: map<int, Entry>, adds: seq<Request>, i: nat)
    requires 0 < i < |adds|
    ensures Taken(Added(m, adds[0]), adds[1..], i - 1) <==> Taken(m, adds, i)
  {
    var rest := adds[1..];
    assert rest[i - 1] == adds[i];
    if j :| 0 <= j < i && adds[j].fd == adds[i].fd {
      if j > 0 {
        assert rest[j - 1].fd == adds[i].fd;
      }
    }
    if j :| 0 <= j < i - 1 && rest[j].fd == adds[i].fd {
      assert adds[j + 1].fd == adds[i].fd;
    }
  }

  lemma {:induction false} RefusesIff(m: map<int, Entry>, adds: seq<Request>)
    ensures Refuses(m, adds) <==> exists i :: 0 <= i < |adds| && Taken(m, adds, i)
    decreases |adds|
  {
    if adds != [] {
      var m1, rest := Added(m, adds[0]), adds[1..];
      RefusesIff(m1, rest);
      assert Taken(m, adds, 0) <==> adds[0].fd in m;
      if i :| 0 <= i < |rest| && Taken(m1, rest, i) {
        TakenShifts(m, adds, i + 1);
        assert Taken(m, adds, i + 1);
      }
      if i :| 0 < i < |adds| && Taken(m, adds, i) {
        TakenShifts(m, adds, i);
        assert Taken(m1, rest, i - 1);
      }
    }
  }

  /** The handler without its first request, which was not refused or not minded. */
  lemma CarriedOutShifts(m: map<int, Entry>, f: Callback, i: nat)
    requires 0 < i < |f.adds| && (f.lenient || f.adds[0].fd !in m)
    ensures CarriedOut(Added(m, f.adds[0]), f.(adds := f.adds[1..]), i - 1) <==> CarriedOut(m, f, i)
  {
    var m1, rest := Added(m, f.adds[0]), f.adds[1..];
    TakenShifts(m, f.adds, i);
    forall k | 0 < k < i ensures Taken(m1, rest, k - 1) <==> Taken(m, f.adds, k) {
      TakenShifts(m, f.adds, k);
    }
    assert !Taken(m, f.adds, 0) || f.lenient;
    assert forall k :: 0 <= k < i - 1 ==> (Taken(m1, rest, k) <==> Taken(m, f.adds, k + 1));
  }

  lemma {:induction false} CarriedOutAreAdded(m: map<int, Entry>, f: Callback, i: nat)
    requires i < |f.adds| && CarriedOut(m, f, i)
    ensures var m', r := AddedAll(m, f.adds, f.lenient), f.adds[i];
            r.fd in m' && m'[r.fd] == Entry(r.events, r.f)
    decreases |f.adds|
  {
    var m1, rest := Added(m, f.adds[0]), f.(adds := f.adds[1..]);
    if i == 0 {
      AddedAllKeeps(m1, rest.adds, f.lenient);
    } else {
      assert f.lenient || !Taken(m, f.adds, 0);
      CarriedOutShifts(m, f, i);
      CarriedOutAreAdded(m1, rest, i - 1);
    }
  }

  lemma {:induction false} AddedWereCarriedOut(m: map<int, Entry>, f: Callback, fd: int) returns (i: nat)
    requires fd in AddedAll(m, f.adds, f.lenient) && fd !in m
    ensures i < |f.adds| && CarriedOut(m, f, i) && f.adds[i].fd == fd
    decreases |f.adds|
  {
    var m1, rest := Added(m, f.adds[0]), f.(adds := f.adds[1..]);
    if f.adds[0].fd == fd {
      i := 0;
    } else {
      var j := AddedWereCarriedOut(m1, rest, fd);
      i := j + 1;
      CarriedOutShifts(m, f, i);
    }
  }

  /** Following the handler request by request comes to exactly that. */
  lemma HandlerMeaning(m: map<int, Entry>, f: Callback)
    ensures Handled(m, f, AddedAll(m, f.adds, f.lenient), Throws(m, f))
  {
    var m' := AddedAll(m, f.adds, f.lenient);
    AddedAllKeeps(m, f.adds, f.lenient);
    RefusesIff(m, f.adds);
    forall i | 0 <= i < |f.adds| && CarriedOut(m, f, i)
      ensures f.adds[i].fd in m' && m'[f.adds[i].fd] == Entry(f.adds[i].events, f.adds[i].f)
    {
      CarriedOutAreAdded(m, f, i);
    }
    forall fd | fd in m' && fd !in m
      ensures exists i :: 0 <= i < |f.adds| && CarriedOut(m, f, i) && f.adds[i].fd == fd
    {
      var i := AddedWereCarriedOut(m, f, fd);
    }
  }

  /** And only one outcome is that: the registrations after a call and whether it threw are settled. */
  lemma HandledIsSettled(m: map<int, Entry>, f: Callback, a: map<int, Entry>, b: map<int, Entry>, p: bool, q: bool)
    requires Handled(m, f, a, p) && Handled(m, f, b, q)
    ensures a == b && p == q
  {
    forall fd | fd in a ensures fd in b && b[fd] == a[fd] {
      if fd !in m {
        var i :| 0 <= i < |f.adds| && CarriedOut(m, f, i) && f.adds[i].fd == fd;
      }
    }
    forall fd | fd in b ensures fd in a {
      if fd !in m {
        var i :| 0 <= i < |f.adds| && CarriedOut(m, f, i) && f.adds[i].fd == fd;
      }
    }
  }

  /** `regs` are the registrations before and after each firing of a round: the descriptor that fires
      is registered with the callback that is called, is taken out, and the callback is handled; only
      the last one may throw, and ends the round. */
  ghost predicate IsTrace(regs: seq<map<int, Entry>>, m: map<int, Entry>, fired: seq<Firing>, m': map<int, Entry>,
                          escaped: bool)
  {
    && |regs| == |fired| + 1 && regs[0] == m && regs[|fired|] == m' && (escaped ==> fired != [])
    && forall j: nat :: j < |fired| ==> Fired(regs[j], fired[j], regs[j + 1], escaped && j == |fired| - 1)
  }

  ghost predicate Fired(m: map<int, Entry>, d: Firing, m': map<int, Entry>, threw: bool) {
    d.fd in m && m[d.fd].f == d.f && Handled(m - {d.fd}, d.f, m', threw)
  }

  ghost predicate Fires(fired: seq<Firing>, fd: int) {
    exists i :: 0 <= i < |fired| && fired[i].fd == fd
  }

  /** The registration of `fd` found after the round was made by a callback of the round. */
  ghost predicate MadeBy(fired: seq<Firing>, fd: int, e: Entry) {
    exists i, j :: 0 <= i < |fired| && 0 <= j < |fired[i].f.adds|
                   && fired[i].f.adds[j].fd == fd && e == Entry(fired[i].f.adds[j].events, fired[i].f.adds[j].f)
  }

  /** A round removes what fired, keeps what did not, and adds only what callbacks asked for. */
  lemma {:induction false} RoundEffect(m: map<int, Entry>, fired: seq<Firing>, fd: int)
    ensures fd in m && !Fires(fired, fd) ==> fd in AfterFirings(m, fired) && AfterFirings(m, fired)[fd] == m[fd]
    ensures fd in AfterFirings(m, fired) ==>
              (fd in m && !Fires(fired, fd)) || MadeBy(fired, fd, AfterFirings(m, fired)[fd])
  {
    if fired != [] {
      var n := |fired| - 1;
      var before := fired[..n];
      var last := fired[n];
      RoundEffect(m, before, fd);
      var m1 := AfterFirings(m, before);
      AddedAllKeeps(m1 - {last.fd}, last.f.adds, last.f.lenient);
      if Fires(before, fd) {
        var i :| 0 <= i < |before| && before[i].fd == fd;
        assert fired[i].fd == fd;
      }
      if !Fires(before, fd) && last.fd != fd {
        assert !Fires(fired, fd);
      }
      if fd in m1 && MadeBy(before, fd, m1[fd]) {
        var i, j :| 0 <= i < |before| && 0 <= j < |before[i].f.adds|
                    && before[i].f.adds[j].fd == fd
                    && m1[fd] == Entry(before[i].f.adds[j].events, before[i].f.adds[j].f);
        assert fired[i] == before[i];
        assert MadeBy(fired, fd, m1[fd]);
      }
    }
  }

  // ----- The dispatch as it is written

  /** Where a descriptor is or would be, counted from the front. */
  function Place(fds: seq<PollFd>, fd: int): (p: nat)
    ensures p <= |fds|
  {
    if fds == [] || fds[0].fd >= fd then 0 else 1 + Place(fds[1..], fd)
  }

  /** In sorted descriptors that is the lower bound, and the only one. */
  lemma {:induction false} PlaceIsLowerBound(fds: seq<PollFd>, fd: int, p: nat)
    requires Sorted(fds)
    ensures IsLowerBound(fds, fd, p) <==> p == Place(fds, fd)
  {
    if fds != [] && fds[0].fd < fd {
      var rest := fds[1..];
      assert forall i :: 0 < i < |fds| ==> fds[i] == rest[i - 1];
      if p > 0 {
        PlaceIsLowerBound(rest, fd, p - 1);
        assert IsLowerBound(fds, fd, p) <==> IsLowerBound(rest, fd, p - 1) by {
          assert forall i :: 0 <= i < |rest| ==> rest[i] == fds[i + 1];
        }
      }
    }
  }

  /** The two vectors, where a completion that was moved out is none; and what was called. */
  datatype Tables = Tables(fds: seq<PollFd>, completions: seq<Option<Callback>>, fired: seq<Firing>)

  predicate Parallel(v: Tables) { |v.completions| == |v.fds| }

  /** Registration on the vectors. */
  function Registering(v: Tables, r: Request): (v': Tables)
    requires Parallel(v)
    ensures Parallel(v')
  {
    var p := Place(v.fds, r.fd);
    if p < |v.fds| && v.fds[p].fd == r.fd then v
    else v.(fds := Inserted(v.fds, p, PollFd(r.fd, r.events)),
            completions := Inserted(v.completions, |v.fds| - p, Some(r.f)))
  }

  function RegisteringAll(v: Tables, adds: seq<Request>): (v': Tables)
    requires Parallel(v)
    ensures Parallel(v')
    decreases |adds|
  {
    if adds == [] then v else RegisteringAll(Registering(v, adds[0]), adds[1..])
  }

  /** The loop from its round `i` on, or nothing when a round erases or looks past the end, or
      calls an empty function. Handlers are taken to be lenient. */
  function WrittenLoop(snapshot: seq<PollFd>, revents: seq<int>, i: nat, res: nat, v: Tables): Option<Tables>
    requires i <= res <= |snapshot| == |revents| && Parallel(v)
    decreases res - i
  {
    if i == res then Some(v)
    else
      var p := Place(v.fds, snapshot[i].fd);
      var index := |v.fds| - p;
      if p < |v.fds| && i < |v.completions| && v.completions[i].Some? && index < |v.completions| then
        var f := v.completions[i].value;
        var taken := Tables(Erased(v.fds, p), Erased(v.completions[i := None], index),
                            v.fired + [Firing(snapshot[i].fd, f, revents[i])]);
        WrittenLoop(snapshot, revents, i + 1, res, RegisteringAll(taken, f.adds))
      else None
  }

  /** `poll` as written, when the system call answers `res`. */
  function WrittenPoll(fds: seq<PollFd>, completions: seq<Callback>, revents: seq<int>, res: nat): Option<Tables>
    requires |completions| == |fds| == |revents| && res <= |fds|
  {
    WrittenLoop(fds, revents, 0, res,
                Tables(fds, seq(|completions|, i requires 0 <= i < |completions| => Some(completions[i])), []))
  }

  /** As written, `poll` runs off the end of its vectors if and only if something is ready: its first
      round looks up the first descriptor, whose distance from the end is the whole length. */
  lemma WrittenPollRunsOffIff(fds: seq<PollFd>, completions: seq<Callback>, revents: seq<int>, res: nat)
    requires Sorted(fds) && |completions| == |fds| == |revents| && res <= |fds|
    ensures WrittenPoll(fds, completions, revents, res) == None <==> res > 0
  {
    if res > 0 {
      assert Place(fds, fds[0].fd) == 0;
    }
  }

  /** One ready descriptor is enough. */
  lemma WrittenPollFails(f: Callback)
    ensures WrittenPoll([PollFd(3, 1)], [f], [1], 1) == None
    ensures Due(map[3 := Entry(1, f)], [PollFd(3, 1)], [1], 1) == [Firing(3, f, 1)]
  {
    WrittenPollRunsOffIff([PollFd(3, 1)], [f], [1], 1);
    assert Due(map[3 := Entry(1, f)], [PollFd(3, 1)], [1], 0) == [];
  }

  /** What the distance from the end, taken as an index, would do alone at any other position: the
      descriptor goes, its predecessor's completion is lost, and the predecessor is left with the
      completion that was due. */
  lemma DistanceErasesAnother(fds: seq<PollFd>, completions: seq<Callback>, p: nat)
    requires Sorted(fds) && |completions| == |fds| && 0 < p < |fds|
    ensures fds[p].fd in Contents(fds, completions) && Sorted(Erased(fds, p))
    ensures var m := Contents(fds, completions);
            Contents(Erased(fds, p), Erased(completions, |fds| - p))
              == m[fds[p - 1].fd := Entry(fds[p - 1].events, m[fds[p].fd].f)] - {fds[p].fd}
  {
    RowInContents(fds, completions, p);
    var n := |fds|;
    var handed := completions[n - p := completions[Mirror(n, p)]];
    assert Erased(completions, n - p) == Erased(handed, Mirror(n, p));
    ErasureIsMapRemoval(fds, handed, p);
    OneCompletionChanged(fds, completions, handed, p - 1);
  }

  lemma OneCompletionChanged(fds: seq<PollFd>, completions: seq<Callback>, completions': seq<Callback>, q: nat)
    requires Sorted(fds) && |completions| == |fds| && q < |fds| && |completions'| == |fds|
    requires completions' == completions[Mirror(|fds|, q) := completions'[Mirror(|fds|, q)]]
    ensures Contents(fds, completions')
              == Contents(fds, completions)[fds[q].fd := Entry(fds[q].events, completions'[Mirror(|fds|, q)])]
  {
    var m, m' := Contents(fds, completions), Contents(fds, completions');
    forall i | 0 <= i < |fds| && i != q
      ensures fds[i].fd in m && fds[i].fd in m' && m'[fds[i].fd] == m[fds[i].fd]
    {
      RowInContents(fds, completions, i);
      RowInContents(fds, completions', i);
    }
    RowInContents(fds, completions', q);
  }

  function Ready(revents: int): int { if revents != 0 then 1 else 0 }

  lemma {:induction false} ReadyFirstIff(revents: seq<int>)
    ensures var res := Sum(revents, Ready);
            && 0 <= res <= |revents|
            && ((forall i :: 0 <= i < |revents| && revents[i] != 0 ==> i < res)
                <==> (forall i :: 0 <= i < res ==> revents[i] != 0))
  {
    if revents != [] {
      var n := |revents| - 1;
      var init := revents[..n];
      assert revents == init + [revents[n]];
      SumAppend(init, revents[n], Ready);
      ReadyFirstIff(init);
      var res := Sum(init, Ready);
      assert forall i :: 0 <= i < n ==> revents[i] == init[i];
      assert (forall i :: 0 <= i < res ==> init[i] != 0) && res < n ==> init[res] == 0;
    }
  }

  /** What the written scan would fire if it found the right completions: the first `res` entries,
      ready or not. */
  function Scanned(m: map<int, Entry>, snapshot: seq<PollFd>, revents: seq<int>, res: nat): seq<Firing>
    requires res <= |snapshot| == |revents| && forall i :: 0 <= i < |snapshot| ==> snapshot[i].fd in m
  {
    seq(res, i requires 0 <= i < res => Firing(snapshot[i].fd, m[snapshot[i].fd].f, revents[i]))
  }

  /** `res` is how many entries are ready. Scanning that many fires what is due if and only if the
      ready entries come first. */
  lemma ScanIsDueIff(m: map<int, Entry>, snapshot: seq<PollFd>, revents: seq<int>)
    requires |snapshot| == |revents| && forall i :: 0 <= i < |snapshot| ==> snapshot[i].fd in m
    ensures var res := Sum(revents, Ready);
            && 0 <= res <= |snapshot|
            && (Scanned(m, snapshot, revents, res) == Due(m, snapshot, revents, |snapshot|)
                <==> forall i :: 0 <= i < res ==> revents[i] != 0)
  {
    var res, n := Sum(revents, Ready), |snapshot|;
    ReadyFirstIff(revents);
    var scanned, due := Scanned(m, snapshot, revents, res), Due(m, snapshot, revents, n);
    if forall i :: 0 <= i < res ==> revents[i] != 0 {
      DueUpTo(m, snapshot, revents, res, n);
    }
    if scanned == due {
      forall i | 0 <= i < res ensures revents[i] != 0 {
        DueAreReady(m, snapshot, revents, n);
        assert scanned[i].revents == revents[i];
      }
    }
  }

  lemma {:induction false} DueUpTo(m: map<int, Entry>, snapshot: seq<PollFd>, revents: seq<int>, res: nat, k: nat)
    requires res <= |snapshot| == |revents| && forall i :: 0 <= i < |snapshot| ==> snapshot[i].fd in m
    requires k <= |snapshot| && forall i :: 0 <= i < |snapshot| ==> (revents[i] != 0 <==> i < res)
    ensures Due(m, snapshot, revents, k) == Scanned(m, snapshot, revents, Min(k, res))
  {
    if k > 0 {
      DueUpTo(m, snapshot, revents, res, k - 1);
    }
  }

  lemma {:induction false} DueAreReady(m: map<int, Entry>, snapshot: seq<PollFd>, revents: seq<int>, k: nat)
    requires k <= |snapshot| == |revents| && forall i :: 0 <= i < |snapshot| ==> snapshot[i].fd in m
    ensures forall i :: 0 <= i < |Due(m, snapshot, revents, k)| ==> Due(m, snapshot, revents, k)[i].revents != 0
  {
    if k > 0 {
      DueAreReady(m, snapshot, revents, k - 1);
    }
  }
}

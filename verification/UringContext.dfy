/** tcx::unsynchronized_uring_context as an object: the rings, the completion objects and the
    loops over them, statement by statement, carrying the execution of `UringProtocol` that they
    perform. What the kernel does meanwhile is given to the methods as parameters. */
module UringContext {
  import opened Collections
  import opened UringProtocol
  import opened UringLifecycle

  // Values of the Linux system call interface.
  const EINTR: int := 4
  const EBADR: int := 53

  /** One call of `io_uring_submit`: how many entries the kernel took, and what it returned. */
  datatype Submission = Submission(taken: nat, result: int)

  /** How `submit_one` ended. `Waiting` means that it had used up the kernel's answers and was
      still looking for a free entry. */
  datatype Outcome = Queued | Error(code: int) | Aborted | Waiting

  /** After this answer the loop tries again. */
  predicate Retries(result: int) { result == 0 || result == EINTR }

  /** How any other answer ends it. */
  function Ended(result: int): Outcome { if result == EBADR then Aborted else Error(-result) }

  /** After the first `n` answers the loop tried again. */
  predicate Retried(kernel: seq<Submission>, n: nat)
    requires n <= |kernel|
  {
    n == 0 || (Retries(kernel[n - 1].result) && Retried(kernel, n - 1))
  }

  lemma {:induction false} AllRetried(kernel: seq<Submission>, n: nat)
    requires n <= |kernel| && Retried(kernel, n)
    ensures forall i :: 0 <= i < n ==> kernel[i].result == 0 || kernel[i].result == 4
  {
    if n > 0 {
      AllRetried(kernel, n - 1);
    }
  }

  /** `rest` is what is left of a queue when entries are taken from its front. */
  ghost predicate IsSuffix(rest: seq<Id>, whole: seq<Id>) {
    |rest| <= |whole| && rest == whole[|whole| - |rest|..]
  }

  lemma SuffixByTaking(out: seq<Id>, rest: seq<Id>, whole: seq<Id>)
    requires out + rest == whole
    ensures IsSuffix(rest, whole) && (|rest| == |whole| ==> rest == whole)
  {}

  /** The loop over the completion queue: copies entries until one of the two sides runs out. */
  method CopyOut(cq: seq<Cqe>, buffer: array<Cqe>) returns (seen: nat)
    modifies buffer
    ensures seen == Min(buffer.Length, |cq|)
    ensures buffer[..] == cq[..seen] + old(buffer[..])[seen..]
  {
    seen := 0;
    while seen < |cq|
      invariant 0 <= seen <= |cq| && seen <= buffer.Length
      invariant forall k :: 0 <= k < seen ==> buffer[k] == cq[k]
      invariant forall k :: seen <= k < buffer.Length ==> buffer[k] == old(buffer[k])
      decreases |cq| - seen
    {
      if seen == buffer.Length {
        break;
      }
      buffer[seen] := cq[seen];
      seen := seen + 1;
    }
  }

  class Context {
    const entries: nat
    var sq: seq<Id>
    var cq: seq<Cqe>
    var live: set<Id>
    ghost var states: seq<State>
    ghost var actions: seq<Action>

    ghost predicate Tracked()
      reads this
    {
      IsRun(AsWritten, entries, states, actions)
    }

    ghost function Now(): State
      reads this
      requires Tracked()
    {
      states[|actions|]
    }

    ghost predicate Valid()
      reads this
    {
      Tracked() && Now().sq == sq && Now().cq == cq && Now().live == live && |sq| <= entries
    }

    /** In the middle of submitting `completion`: it is allocated, and not yet queued. */
    ghost predicate Undecided(completion: Id)
      reads this
    {
      && Tracked() && Now().sq == sq && Now().cq == cq && |sq| <= entries
      && completion !in Now().live && live == Now().live + {completion}
    }

    constructor (entries: nat)
      ensures Valid() && this.entries == entries && sq == [] && cq == [] && live == {} && actions == []
    {
      this.entries := entries;
      sq, cq, live := [], [], {};
      states, actions := [START], [];
    }

    ghost method Advance(a: Action)
      requires Tracked() && Enabled(entries, Now(), a)
      modifies this`states, this`actions
      ensures Tracked() && actions == old(actions) + [a] && Now() == Apply(AsWritten, old(Now()), a)
    {
      Lengthen(AsWritten, entries, states, actions, a);
      states, actions := states + [Apply(AsWritten, Now(), a)], actions + [a];
    }

    /** The kernel takes entries off the submission queue. */
    method KernelTakes(taken: nat)
      requires Valid()
      modifies this`sq, this`states, this`actions
      ensures Valid() && sq == old(sq)[Min(taken, |old(sq)|)..]
      ensures Now().reaped == old(Now()).reaped && Now().running == old(Now()).running && Now().log == old(Now()).log
      ensures Now().delivered == old(Now()).delivered
    {
      var i := 0;
      while i < taken && sq != []
        invariant 0 <= i <= taken && i <= |old(sq)| && Valid() && sq == old(sq)[i..]
        invariant Now().delivered == old(Now()).delivered
        invariant Now().reaped == old(Now()).reaped && Now().running == old(Now()).running
        invariant Now().log == old(Now()).log
      {
        Advance(Consume);
        sq := sq[1..];
        i := i + 1;
      }
    }

    /** `io_uring_submit` and the `switch` over its answer; `out` are the entries the kernel took. */
    method AskKernel(submission: Submission) returns (again: bool, r: Outcome, ghost out: seq<Id>)
      requires Valid()
      modifies this`sq, this`states, this`actions
      ensures Valid() && out + sq == old(sq) && Now().log == old(Now()).log
      ensures Now().reaped == old(Now()).reaped && Now().running == old(Now()).running
      ensures again <==> Retries(submission.result)
      ensures !again ==> r == Ended(submission.result)
    {
      out := sq[..Min(submission.taken, |sq|)];
      KernelTakes(submission.taken);
      var result := submission.result;
      if result == 0 || result == EINTR {
        return true, Waiting, out;
      } else if result == EBADR {
        return false, Aborted, out;
      } else {
        return false, Error(-result), out;
      }
    }

    /** Finds a free submission entry, asking the kernel for room, and reports how it went. The
        object is not live yet as far as the protocol knows: that is decided by the outcome. */
    method GetEntry(kernel: seq<Submission>) returns (r: Outcome, used: nat)
      requires Valid()
      modifies this`sq, this`states, this`actions
      ensures Valid() && used <= |kernel| && Now().log == old(Now()).log
      ensures Now().reaped == old(Now()).reaped && Now().running == old(Now()).running
      ensures IsSuffix(sq, old(sq))
      ensures forall i :: 0 <= i < used - 1 ==> kernel[i].result == 0 || kernel[i].result == 4
      ensures r == Queued <==>
                |sq| < entries && (used > 0 ==> kernel[used - 1].result == 0 || kernel[used - 1].result == 4)
      ensures r.Error? <==> used > 0 && kernel[used - 1].result != 0 && kernel[used - 1].result != 4
                            && kernel[used - 1].result != 53
      ensures r.Error? ==> r.code == -kernel[used - 1].result
      ensures r == Aborted <==> used > 0 && kernel[used - 1].result == 53
      ensures r == Waiting ==> used == |kernel| && |sq| == entries && sq == old(sq)
      ensures |old(sq)| < entries ==> r == Queued && used == 0
    {
      ghost var out;
      r, used, out := Search(kernel);
      SuffixByTaking(out, sq, old(sq));
      AllRetried(kernel, if used > 0 then used - 1 else 0);
    }

    /** The loop; `out` are the entries the kernel took. */
    method Search(kernel: seq<Submission>) returns (r: Outcome, used: nat, ghost out: seq<Id>)
      requires Valid()
      modifies this`sq, this`states, this`actions
      ensures Valid() && used <= |kernel| && Now().log == old(Now()).log
      ensures Now().reaped == old(Now()).reaped && Now().running == old(Now()).running
      ensures out + sq == old(sq)
      ensures used > 0 ==> Retried(kernel, used - 1)
      ensures used == 0 ==> r == if |old(sq)| < entries then Queued else Waiting
      ensures r == Queued ==> |sq| < entries && (used > 0 ==> Retries(kernel[used - 1].result))
      ensures r == Waiting ==> used == |kernel| && |sq| == entries && (used > 0 ==> Retries(kernel[used - 1].result))
      ensures r == Aborted || r.Error? ==> used > 0 && !Retries(kernel[used - 1].result)
                                           && r == Ended(kernel[used - 1].result)
      ensures |old(sq)| < entries ==> used == 0
    {
      used, out := 0, [];
      while |sq| == entries
        invariant Valid() && used <= |kernel| && Now().log == old(Now()).log
        invariant Now().reaped == old(Now()).reaped && Now().running == old(Now()).running
        invariant out + sq == old(sq) && Retried(kernel, used)
        invariant used == 0 ==> sq == old(sq)
        invariant |old(sq)| < entries ==> used == 0
        decreases |kernel| - used
      {
        if used == |kernel| {
          return Waiting, used, out;
        }
        var again;
        ghost var more;
        again, r, more := AskKernel(kernel[used]);
        Associate(out, more, sq);
        used, out := used + 1, out + more;
        if !again {
          return r, used, out;
        }
      }
      return Queued, used, out;
    }

    lemma NotLeftBehind(completion: Id)
      requires Valid() && completion !in live
      ensures completion !in sq
    {
      RunInv(AsWritten, entries, states, actions, |actions|);
      assert Accounted(Now(), completion);
      DeadIsNotQueued(Now(), completion);
    }

    /** `*sqe = *submission`, with room for it. */
    method Enqueue(completion: Id)
      requires Undecided(completion) && |sq| < entries
      modifies this`sq, this`states, this`actions
      ensures Valid() && sq == old(sq) + [completion] && Now().log == old(Now()).log + [Alloc(completion)]
      ensures Now().running == old(Now()).running && Now().reaped == old(Now()).reaped
    {
      Advance(SubmitOk(completion));
      sq := sq + [completion];
    }

    /** `delete_object` of a completion that was not queued. */
    method Discard(completion: Id)
      requires Undecided(completion)
      modifies this`live, this`states, this`actions
      ensures Valid() && sq == old(sq) && live == old(Now()).live && completion !in sq
      ensures Now().log == old(Now()).log + [Alloc(completion), Free(completion)]
      ensures Now().running == old(Now()).running && Now().reaped == old(Now()).reaped
    {
      assert live - {completion} == Now().live;
      live := live - {completion};
      Advance(SubmitFailed(completion));
      NotLeftBehind(completion);
    }

    /** What `submit` does once it knows how `submit_one` ended. */
    method Conclude(r: Outcome, completion: Id)
      requires Undecided(completion) && (r == Queued ==> |sq| < entries)
      modifies this`sq, this`live, this`states, this`actions
      ensures Tracked() && Now().running == old(Now()).running && Now().reaped == old(Now()).reaped
      ensures r == Queued ==> Valid() && live == old(live) && sq == old(sq) + [completion]
      ensures r == Queued ==> Now().log == old(Now()).log + [Alloc(completion)]
      ensures r.Error? ==> Valid() && live == old(Now()).live && sq == old(sq) && completion !in sq
      ensures r.Error? ==> Now().log == old(Now()).log + [Alloc(completion), Free(completion)]
      ensures r != Queued && !r.Error? ==> Undecided(completion) && live == old(live) && sq == old(sq)
    {
      if r == Queued {
        Enqueue(completion);
      } else if r.Error? {
        Discard(completion);
      }
    }

    /** `submit`: allocates the completion, queues the operation under its address, and frees the
        completion again exactly when an error says that nothing was queued. */
    method Submit(completion: Id, kernel: seq<Submission>) returns (r: Outcome, used: nat)
      requires Valid() && completion !in live
      modifies this
      ensures used <= |kernel|
      ensures r == Queued ==> Valid() && live == old(live) + {completion}
      ensures r == Queued ==> sq != [] && sq[|sq| - 1] == completion && IsSuffix(sq[..|sq| - 1], old(sq))
      ensures r == Queued ==> Now().log == old(Now()).log + [Alloc(completion)]
      ensures r.Error? ==> Valid() && live == old(live) && completion !in sq
      ensures r.Error? ==> Now().log == old(Now()).log + [Alloc(completion), Free(completion)]
      ensures r.Error? ==> used > 0 && r.code == -kernel[used - 1].result
      ensures r.Error? ==> kernel[used - 1].result != 0 && kernel[used - 1].result != 4
      ensures |old(sq)| < entries ==> r == Queued
      ensures cq == old(cq)
      ensures Tracked() && Now().running == old(Now()).running && Now().reaped == old(Now()).reaped
      ensures r == Aborted || r == Waiting ==> Undecided(completion) && live == old(live) + {completion}
      ensures r == Waiting ==> used == |kernel| && |sq| == entries && sq == old(sq)
    {
      r, used := GetEntry(kernel);
      live := live + {completion};
      ghost var room := sq;
      Conclude(r, completion);
      assert r == Queued ==> sq[..|sq| - 1] == room;
    }

    /** The kernel answers an operation. */
    method KernelPosts(cqe: Cqe)
      requires Valid() && cqe.id in Now().inflight
      modifies this`cq, this`states, this`actions
      ensures Valid() && cq == old(cq) + [cqe] && Now().posted == old(Now()).posted + [cqe]
      ensures Now().reaped == old(Now()).reaped && Now().running == old(Now()).running && Now().log == old(Now()).log
    {
      Advance(PostCqe(cqe.id, cqe.more, cqe.res));
      cq := cq + [cqe];
    }

    /** The loop over the ring, and the advance of the ring. */
    method ReapInto(buffer: array<Cqe>) returns (seen: nat)
      requires Valid()
      modifies this`cq, this`states, this`actions, buffer
      ensures Valid() && seen == Min(buffer.Length, |old(cq)|) && cq == old(cq)[seen..]
      ensures buffer[..] == old(cq)[..seen] + old(buffer[..])[seen..]
      ensures Now().delivered == old(Now()).delivered + old(cq)[..seen]
      ensures Now().reaped == old(Now()).reaped + old(cq)[..seen]
      ensures Now().running == old(Now()).running && Now().log == old(Now()).log
    {
      seen := CopyOut(cq, buffer);
      Advance(Reap(buffer.Length));
      cq := cq[seen..];
    }

    /** `wait_many`: the kernel takes what is queued; then, only when that reports zero, as many
        entries as there are and fit are copied out, and the ring advances by that many. */
    method WaitMany(buffer: array<Cqe>, submission: Submission) returns (error: int, seen: nat)
      requires Valid()
      modifies this, buffer
      ensures Valid() && live == old(live) && sq == old(sq)[Min(submission.taken, |old(sq)|)..]
      ensures error == -submission.result && Now().log == old(Now()).log
      ensures submission.result != 0 ==> seen == 0 && cq == old(cq) && buffer[..] == old(buffer[..])
      ensures submission.result == 0 ==> seen == Min(buffer.Length, |old(cq)|)
      ensures submission.result == 0 ==> buffer[..] == old(cq)[..seen] + old(buffer[..])[seen..]
      ensures cq == old(cq)[seen..]
      ensures Now().delivered == old(Now()).delivered + old(cq)[..seen]
      ensures Now().reaped == old(Now()).reaped + old(cq)[..seen] && Now().running == old(Now()).running
    {
      KernelTakes(submission.taken);
      if submission.result != 0 {
        return -submission.result, 0;
      }
      seen := ReapInto(buffer);
      error := 0;
    }

    lemma NamedIsAllocated(id: Id)
      requires Valid() && Named(Now(), id)
      ensures id in live
    {
      RunInv(AsWritten, entries, states, actions, |actions|);
      assert Accounted(Now(), id);
      NamedIsLive(Now(), id);
    }

    /** `complete` up to the call: the completion that a reaped entry names is there to be called.
        `i` is where the entry was reaped. What the callback does with this object comes next. */
    method BeginComplete(cqe: Cqe, ghost i: nat)
      requires Valid() && Enabled(entries, Now(), Begin(i)) && cqe == Now().reaped[i]
      modifies this`states, this`actions
      ensures Valid() && cqe.id in live
      ensures Now().reaped == Erased(old(Now()).reaped, i) && Now().running == old(Now()).running + [cqe]
      ensures Now().log == old(Now()).log + [Use(cqe.id)]
    {
      assert Pending(Now())[i].id == cqe.id;
      NamedIsAllocated(cqe.id);
      Advance(Begin(i));
    }

    /** The rest of `invoke`, after the callback: the completion is deleted when this was its last
        entry and the callback threw. `j` is which of the calls in progress this is. */
    method EndComplete(cqe: Cqe, ghost j: nat, throws: bool)
      requires Valid() && j < |Now().running| && cqe == Now().running[j]
      modifies this`live, this`states, this`actions
      ensures Valid() && cqe.id in old(live)
      ensures live == if !cqe.more && throws then old(live) - {cqe.id} else old(live)
      ensures Now().reaped == old(Now()).reaped && Now().running == Erased(old(Now()).running, j)
      ensures Now().log == old(Now()).log + if !cqe.more && throws then [Free(cqe.id)] else []
    {
      assert Mentions(Now().running, cqe.id);
      NamedIsAllocated(cqe.id);
      Advance(End(j, throws));
      if !cqe.more {
        if throws {
          live := live - {cqe.id};
        }
      }
    }

    /** `complete` and `invoke` with a callback that makes no calls on this object. */
    method Complete(cqe: Cqe, ghost i: nat, throws: bool)
      requires Valid() && Enabled(entries, Now(), Begin(i)) && cqe == Now().reaped[i]
      modifies this
      ensures Valid() && sq == old(sq) && cq == old(cq)
      ensures Now().reaped == Erased(old(Now()).reaped, i) && Now().running == old(Now()).running
      ensures cqe.id in old(live)
      ensures live == if !cqe.more && throws then old(live) - {cqe.id} else old(live)
      ensures Now().log == old(Now()).log + [Use(cqe.id)] + if !cqe.more && throws then [Free(cqe.id)] else []
    {
      ghost var running := Now().running;
      BeginComplete(cqe, i);
      assert Erased(Now().running, |running|) == running;
      EndComplete(cqe, |running|, throws);
    }

    /** With a callback that submits an operation of its own while it is called. */
    method CompleteSubmitting(cqe: Cqe, ghost i: nat, throws: bool, completion: Id, kernel: seq<Submission>)
      returns (r: Outcome)
      requires Valid() && Enabled(entries, Now(), Begin(i)) && cqe == Now().reaped[i] && completion !in live
      modifies this
      ensures r == Queued || r.Error? ==> Valid() && Now().running == old(Now()).running
      ensures r == Queued || r.Error? ==>
                live == old(live) + (if r == Queued then {completion} else {})
                        - (if !cqe.more && throws then {cqe.id} else {})
      ensures r == Queued ==> sq != [] && sq[|sq| - 1] == completion
      ensures r == Aborted || r == Waiting ==> Undecided(completion) && live == old(live) + {completion}
      ensures r == Aborted || r == Waiting ==> Now().running == old(Now()).running + [cqe]
      ensures cqe.id != completion
    {
      ghost var running := Now().running;
      BeginComplete(cqe, i);
      var used;
      r, used := Submit(completion, kernel);
      if r == Queued || r.Error? {
        assert Erased(Now().running, |running|) == running;
        EndComplete(cqe, |running|, throws);
      }
    }
  }
}

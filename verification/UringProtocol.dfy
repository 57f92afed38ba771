/** The life of an io_uring operation: its completion object is allocated on submission, its
    address travels through the submission queue, the kernel and the completion queue, and the
    object is called for every completion entry and deleted with the last.

    The kernel is any environment that consumes entries in order and answers each operation with
    entries flagged MORE and one that is not. Calls of completions may overlap and may submit. */
module UringProtocol {
  import opened Collections

  type Id = nat

  datatype Cqe = Cqe(id: Id, more: bool, res: int)

  /** `Completion::invoke` deletes its object after the last entry when the callback throws;
      `Intended`, as its comment has it, in any case. */
  datatype Policy = AsWritten | Intended

  datatype Event = Alloc(id: Id) | Free(id: Id) | Use(id: Id)

  datatype State = State(sq: seq<Id>, inflight: set<Id>, cq: seq<Cqe>, reaped: seq<Cqe>, running: seq<Cqe>,
                         live: set<Id>, leaked: set<Id>, log: seq<Event>, posted: seq<Cqe>, delivered: seq<Cqe>)

  datatype Action =
    | SubmitOk(id: Id)
    | SubmitFailed(id: Id)
    | Consume
    | PostCqe(id: Id, more: bool, res: int)
    | Reap(capacity: nat)
    | Begin(i: nat)
    | End(j: nat, throws: bool)

  const START := State([], {}, [], [], [], {}, {}, [], [], [])

  /** Entries nobody has started to handle, oldest first. */
  function Pending(s: State): seq<Cqe> { s.reaped + s.cq }

  ghost predicate Mentions(q: seq<Cqe>, id: Id) {
    exists i :: 0 <= i < |q| && q[i].id == id
  }

  /** The caller may handle reaped entries in any order and on any thread, but those of one
      operation one at a time and in the order they came. */
  ghost predicate Enabled(entries: nat, s: State, a: Action) {
    match a
    case SubmitOk(id) => id !in s.live && |s.sq| < entries
    case SubmitFailed(id) => id !in s.live
    case Consume => s.sq != []
    case PostCqe(id, _, _) => id in s.inflight
    case Reap(_) => true
    case Begin(i) => i < |s.reaped| && !Mentions(s.reaped[..i], s.reaped[i].id) && !Mentions(s.running, s.reaped[i].id)
    case End(j, _) => j < |s.running|
  }

  function Deletes(policy: Policy, c: Cqe, throws: bool): bool { !c.more && (policy.Intended? || throws) }

  function Apply(policy: Policy, s: State, a: Action): State
    requires a.Consume? ==> s.sq != []
    requires a.Begin? ==> a.i < |s.reaped|
    requires a.End? ==> a.j < |s.running|
  {
    match a
    case SubmitOk(id) => s.(live := s.live + {id}, sq := s.sq + [id], log := s.log + [Alloc(id)])
    case SubmitFailed(id) => s.(log := s.log + [Alloc(id), Free(id)])
    case Consume => s.(sq := s.sq[1..], inflight := s.inflight + {s.sq[0]})
    case PostCqe(id, more, res) =>
      s.(cq := s.cq + [Cqe(id, more, res)], posted := s.posted + [Cqe(id, more, res)],
         inflight := if more then s.inflight else s.inflight - {id})
    case Reap(capacity) =>
      var n := Min(capacity, |s.cq|);
      s.(reaped := s.reaped + s.cq[..n], delivered := s.delivered + s.cq[..n], cq := s.cq[n..])
    case Begin(i) =>
      s.(reaped := Erased(s.reaped, i), running := s.running + [s.reaped[i]], log := s.log + [Use(s.reaped[i].id)])
    case End(j, throws) =>
      var c := s.running[j];
      var t := s.(running := Erased(s.running, j));
      if Deletes(policy, c, throws) then t.(live := s.live - {c.id}, log := s.log + [Free(c.id)])
      else if !c.more then t.(leaked := s.leaked + {c.id})
      else t
  }

  ghost predicate Stepped(policy: Policy, entries: nat, states: seq<State>, actions: seq<Action>, i: nat) {
    && i < |actions| < |states|
    && Enabled(entries, states[i], actions[i]) && states[i + 1] == Apply(policy, states[i], actions[i])
  }

  ghost predicate IsRun(policy: Policy, entries: nat, states: seq<State>, actions: seq<Action>) {
    && |states| == |actions| + 1 && states[0] == START
    && forall i: nat :: i < |actions| ==> Stepped(policy, entries, states, actions, i)
  }

  /** One more step of an execution. */
  lemma Extend(policy: Policy, entries: nat, states: seq<State>, actions: seq<Action>, a: Action, s: State)
      returns (states': seq<State>, actions': seq<Action>)
    requires IsRun(policy, entries, states, actions)
    requires Enabled(entries, states[|actions|], a) && s == Apply(policy, states[|actions|], a)
    ensures states' == states + [s] && actions' == actions + [a] && states'[|actions'|] == s
    ensures IsRun(policy, entries, states', actions')
  {
    states', actions' := states + [s], actions + [a];
    Lengthen(policy, entries, states, actions, a);
  }

  lemma Lengthen(policy: Policy, entries: nat, states: seq<State>, actions: seq<Action>, a: Action)
    requires IsRun(policy, entries, states, actions) && Enabled(entries, states[|actions|], a)
    ensures IsRun(policy, entries, states + [Apply(policy, states[|actions|], a)], actions + [a])
  {
    var states', actions' := states + [Apply(policy, states[|actions|], a)], actions + [a];
    forall i: nat | i < |actions'| ensures Stepped(policy, entries, states', actions', i) {
      if i < |actions| {
        assert Stepped(policy, entries, states, actions, i);
      }
    }
  }

  // ----- The invariant

  function Is(id: Id): Id -> int { (x: Id) => if x == id then 1 else 0 }

  function Final(id: Id): Cqe -> int { (c: Cqe) => if c.id == id && !c.more then 1 else 0 }

  function Finals(q: seq<Cqe>, id: Id): int { Sum(q, Final(id)) }

  /** A live completion is in exactly one place: the submission queue, the kernel, behind a last
      entry waiting to be handled, in the call for that entry, or leaked; a dead one in none. */
  ghost predicate Accounted(s: State, id: Id) {
    Bit(id in s.live) ==
      Sum(s.sq, Is(id)) + Bit(id in s.inflight) + Finals(Pending(s), id) + Finals(s.running, id) + Bit(id in s.leaked)
  }

  /** The operation has its last entry still to come, from the kernel or from the queues. */
  ghost predicate Open(s: State, id: Id) {
    id in s.inflight || Finals(Pending(s), id) > 0
  }

  /** Entries that are not the last belong to open operations, and the last comes last. */
  ghost predicate Ordered(s: State) {
    && (forall i :: 0 <= i < |Pending(s)| && Pending(s)[i].more ==> Open(s, Pending(s)[i].id))
    && (forall i, j :: 0 <= i < j < |Pending(s)| && Pending(s)[i].id == Pending(s)[j].id ==> Pending(s)[i].more)
  }

  /** The calls in progress are for different operations, open ones if more entries will come. */
  ghost predicate Calls(s: State) {
    && (forall i, j :: 0 <= i < j < |s.running| ==> s.running[i].id != s.running[j].id)
    && (forall i :: 0 <= i < |s.running| && s.running[i].more ==> Open(s, s.running[i].id))
  }

  ghost predicate AllAccounted(s: State) { forall id :: Accounted(s, id) }

  ghost predicate Inv(s: State) {
    && AllAccounted(s) && Ordered(s) && Calls(s)
    && s.posted == s.delivered + s.cq
    && Replay(s.log) == Some(s.live)
  }

  /** An independent monitor of memory use: the set of allocated objects after a history, or
      nothing if the history allocates one twice, or uses or frees one that is not there. */
  function Replay(log: seq<Event>): Option<set<Id>> {
    if log == [] then Some({})
    else
      var before := Replay(log[..|log| - 1]);
      var e := log[|log| - 1];
      if before.None? then None
      else match e
        case Alloc(id) => if id in before.value then None else Some(before.value + {id})
        case Free(id) => if id in before.value then Some(before.value - {id}) else None
        case Use(id) => if id in before.value then before else None
  }

  lemma ReplayNext(log: seq<Event>, e: Event)
    ensures Replay(log + [e]) ==
              var before := Replay(log);
              if before.None? then None
              else match e
                case Alloc(id) => if id in before.value then None else Some(before.value + {id})
                case Free(id) => if id in before.value then Some(before.value - {id}) else None
                case Use(id) => if id in before.value then before else None
  {
    assert (log + [e])[..|log|] == log;
  }
}

/** tcx::unique_function: the wrapper object and its operations, statement by statement, over a
    memory of live callables. Each operation is proved to have exactly the effect that
    `CallableStore` and `Ownership` describe, and to touch only live, aligned, free memory. */
module UniqueFunction {
  import opened Collections
  import opened Layout
  import opened CallableStore
  import opened Ownership
  import opened Effects

  /** A wrapper: the three words of its header, at a fixed address. */
  class Wrapper {
    const base: nat
    var vtable: Option<Table>
    var call: Entry
    var data: nat

    constructor (base: nat)
      ensures this.base == base && Says() == BLANK
    {
      this.base := base;
      vtable, call, data := None, NoCall, 0;
    }

    ghost function Says(): Header
      reads this
    {
      Header(vtable, call, data)
    }
  }

  /** Memory: the live objects, and as ghosts the wrappers there are and what all of it means. */
  class Memory {
    var live: map<nat, Object>
    ghost var at: map<nat, Wrapper>
    ghost var world: World

    /** `world` says what is there. */
    ghost predicate Mirrors()
      reads this, at.Values
    {
      && world.live == live && world.headers.Keys == at.Keys
      && forall a :: a in at ==> at[a].base == a && world.headers[a] == at[a].Says()
    }

    ghost predicate Valid()
      reads this, at.Values
    {
      Mirrors() && WellFormed(world)
    }

    constructor ()
      ensures Valid() && at == map[] && world == NOTHING
    {
      live, at, world := map[], map[], NOTHING;
    }

    ghost predicate Has(f: Wrapper)
      reads this
    {
      f.base in at && at[f.base] == f
    }

    // ----- What the tables' functions do

    /** `construct_at(dst, move(*src))`: needs a live source and free, aligned memory. */
    method MoveConstruct(t: Table, dst: nat, src: nat)
      requires src in live && !live[src].moved && live[src].ty == t.ty
      requires t.ty.align > 0 && dst % t.ty.align == 0
      requires forall p :: p in live ==> Apart(dst, t.ty.size, p, live[p].ty.size)
      requires dst !in live
      modifies this`live
      ensures live == old(live)[src := old(live[src]).(moved := true)][dst := old(live[src]).(onHeap := false)]
    {
      live := live[dst := live[src].(onHeap := false)][src := live[src].(moved := true)];
    }

    /** `destroy_at(p)` or `delete p`: needs a live object of the table's kind. */
    method DestroyObject(t: Table, p: nat)
      requires p in live && live[p].ty == t.ty && live[p].onHeap == t.onHeap
      modifies this`live
      ensures live == old(live) - {p}
    {
      live := live - {p};
    }

    // ----- swap

    /** A move-construction and the destruction of its source, from block `from` into the empty
        block `to` at the same offset. */
    method Relocate(t: Table, from: nat, to: nat, offset: nat)
      requires from % BLOCK == 0 && to % BLOCK == 0 && from != to
      requires Sits(live, t, from, from + offset) && Clear(live, from, from + offset) && Clear(live, to, 0)
      modifies this`live
      ensures live == (old(live) - {from + offset})[to + offset := old(live)[from + offset]]
      ensures Sits(live, t, to, to + offset) && Clear(live, to, to + offset) && Clear(live, from, 0)
    {
      BlocksApart(from, to);
      RelocationIsAligned(from, to, from + offset, t.ty);
      MoveConstruct(t, to + offset, from + offset);
      DestroyObject(t, from + offset);
    }

    /** Both callables are inline: they change places by way of a temporary block. */
    method ExchangeInline(t: Table, a: nat, i: nat, u: Table, b: nat, j: nat, tmp: nat)
      requires a % BLOCK == 0 && b % BLOCK == 0 && tmp % BLOCK == 0 && a != b && a != tmp && b != tmp
      requires Sits(live, t, a, a + i) && Sits(live, u, b, b + j)
      requires Clear(live, a, a + i) && Clear(live, b, b + j) && Clear(live, tmp, 0)
      modifies this`live
      ensures live == SwappedLive(old(live), a, a + i, b, b + j)
    {
      BlocksApart(a, b);
      BlocksApart(a, tmp);
      BlocksApart(b, tmp);
      ghost var o := live[a + i];
      ThreeMoves(live, a, i, b, j, tmp);
      Relocate(t, a, tmp, i);
      assert Clear(live, b, b + j);
      Relocate(u, b, a, j);
      assert live[tmp + i] == o;
      Relocate(t, tmp, b, i);
    }

    /** `swap` itself, on exactly the memory it needs: the two blocks and the temporary one hold
        nothing but the two callables, and those are placed as their headers say. */
    method SwapWords(first: Wrapper, second: Wrapper, tmp: nat)
      requires first.base % BLOCK == 0 && second.base % BLOCK == 0 && tmp % BLOCK == 0
      requires first.base == second.base ==> first == second && !IsInline(first.base, first.data)
      requires first.base != tmp && second.base != tmp
      requires Placed(live, first.base, first.vtable, first.data)
      requires Placed(live, second.base, second.vtable, second.data)
      requires Clear(live, first.base, first.data) && Clear(live, second.base, second.data) && Clear(live, tmp, 0)
      modifies this`live, first, second
      ensures live == SwappedLive(old(live), first.base, old(first.data), second.base, old(second.data))
      ensures first.Says() == old(second.Says()).(data := Carried(second.base, first.base, old(second.data)))
      ensures second.Says() == old(first.Says()).(data := Carried(first.base, second.base, old(first.data)))
      decreases !IsInline(first.base, first.data)
    {
      var firstIsInline := IsInline(first.base, first.data);
      var secondIsInline := IsInline(second.base, second.data);
      if firstIsInline && secondIsInline {
        var firstIndex := first.data - first.base;
        var secondIndex := second.data - second.base;
        ExchangeInline(first.vtable.value, first.base, firstIndex, second.vtable.value, second.base, secondIndex, tmp);
        first.data := first.base + secondIndex;
        second.data := second.base + firstIndex;
        first.vtable, second.vtable := second.vtable, first.vtable;
        first.call, second.call := second.call, first.call;
      } else if firstIsInline {
        var firstIndex := first.data - first.base;
        Relocate(first.vtable.value, first.base, second.base, firstIndex);
        first.data := second.data;
        second.data := second.base + firstIndex;
        first.vtable, second.vtable := second.vtable, first.vtable;
        first.call, second.call := second.call, first.call;
      } else if secondIsInline {
        SwapWords(second, first, tmp);
      } else {
        first.vtable, second.vtable := second.vtable, first.vtable;
        first.call, second.call := second.call, first.call;
        first.data, second.data := second.data, first.data;
        assert live == SwappedLive(live, first.base, second.data, second.base, first.data);
      }
    }

    // ----- The public operations

    /** Two wrappers exchange what they hold; one that is swapped with itself, and does not hold an
        inline callable, stays as it is. */
    method Swap(first: Wrapper, second: Wrapper, tmp: nat)
      requires Valid() && Has(first) && Has(second) && FreshBlock(world, tmp)
      requires first == second ==> !IsInline(first.base, first.data)
      modifies this, first, second
      ensures Valid() && at == old(at)
      ensures world == if first == second then old(world) else Swapped(old(world), first.base, second.base)
      ensures ContentOf(world, first.base) == ContentOf(old(world), second.base)
      ensures ContentOf(world, second.base) == ContentOf(old(world), first.base)
      ensures forall c :: c in old(world).headers && c != first.base && c != second.base ==> Same(old(world), world, c)
    {
      MoveAssignEffect(world, first.base, second.base);
      ReadyToSwap(world, first.base, second.base, tmp);
      if first != second {
        SwapKeepsWellFormed(world, first.base, second.base);
      }
      SwapTracked(first, second, tmp);
    }

    method SwapTracked(first: Wrapper, second: Wrapper, tmp: nat)
      requires Mirrors() && Has(first) && Has(second) && (first == second ==> !IsInline(first.base, first.data))
      requires Ready(world, first.base) && Ready(world, second.base) && Clear(live, tmp, 0)
      requires tmp % BLOCK == 0 && tmp !in at
      modifies this, first, second
      ensures Mirrors() && at == old(at)
      ensures world == if first == second then old(world) else Exchanged(old(world), first.base, second.base)
    {
      ghost var w := world;
      assert w.headers[first.base] == first.Says() && w.headers[second.base] == second.Says();
      SwapWords(first, second, tmp);
      if first != second {
        world := Exchanged(w, first.base, second.base);
      }
    }

    /** The default constructor. */
    method NewEmpty(base: nat) returns (f: Wrapper)
      requires Valid() && FreshBlock(world, base)
      modifies this
      ensures Valid() && fresh(f) && f.base == base && at == old(at)[base := f]
      ensures world == WithEmpty(old(world), base)
      ensures ContentOf(world, base) == Empty && OthersKeep(old(world), world, base)
    {
      EmptyEffect(world, base);
      ghost var w := world;
      f := new Wrapper(base);
      at := at[base := f];
      world := WithEmpty(w, base);
      EmptyKeeps(w, base);
    }

    /** Construction from a reference or from a function pointer: nothing is owned. */
    method NewReferent(base: nat, target: nat) returns (f: Wrapper)
      requires Valid() && CanDo(world, Op.NewReferent(base, target))
      modifies this
      ensures Valid() && fresh(f) && f.base == base && at == old(at)[base := f]
      ensures world == WithReferent(old(world), base, target)
      ensures ContentOf(world, base) == Unowned(target) && OthersKeep(old(world), world, base)
    {
      ReferentEffect(world, base, target);
      f := Refer(base, target);
    }

    method Refer(base: nat, target: nat) returns (f: Wrapper)
      requires Mirrors() && base !in at
      modifies this
      ensures Mirrors() && fresh(f) && f.base == base && at == old(at)[base := f]
      ensures world == WithReferent(old(world), base, target)
    {
      f := new Wrapper(base);
      f.call, f.data := CallReferent, target;
      at := at[base := f];
      world := WithReferent(world, base, target);
    }

    /** In-place construction of a callable: in the storage if it fits there and moves without
        throwing, otherwise at the address `h` that the allocator returned. */
    method NewObject(base: nat, ty: Type, val: int, h: nat) returns (f: Wrapper)
      requires Valid() && CanDo(world, Op.NewObject(base, ty, val, h))
      modifies this
      ensures Valid() && fresh(f) && f.base == base && at == old(at)[base := f]
      ensures world == Do(old(world), Op.NewObject(base, ty, val, h))
      ensures ContentOf(world, base) == Owned(ty, val) && OthersKeep(old(world), world, base)
      ensures f.data in live && PutRight(base, ty, h, f.data, live[f.data].onHeap)
    {
      ObjectEffect(world, base, ty, val, h);
      TypeHasAlignment(ty);
      ObjectKeeps(world, base, ty, val, h);
      f := Build(base, ty, val, h);
    }

    method Build(base: nat, ty: Type, val: int, h: nat) returns (f: Wrapper)
      requires Mirrors() && base !in at && ty.align > 0
      modifies this
      ensures Mirrors() && fresh(f) && f.base == base && at == old(at)[base := f]
      ensures world == WithObject(old(world), base, ty, val, h)
    {
      f := new Wrapper(base);
      var pointer := Place(base, ty);
      if pointer.Some? {
        live := live[pointer.value := Object(ty, val, false, false)];
        f.vtable, f.call, f.data := Some(Table(ty, false)), CallObject(ty), pointer.value;
      } else {
        live := live[h := Object(ty, val, true, false)];
        f.vtable, f.call, f.data := Some(Table(ty, true)), CallObject(ty), h;
      }
      at := at[base := f];
      world := WithObject(world, base, ty, val, h);
    }

    /** The move constructor: an empty wrapper that swaps with its source. */
    method MoveNew(base: nat, other: Wrapper, tmp: nat) returns (f: Wrapper)
      requires Valid() && Has(other) && FreshBlock(world, base) && FreshBlock(world, tmp) && tmp != base
      modifies this, other
      ensures Valid() && fresh(f) && f.base == base && at == old(at)[base := f]
      ensures world == Do(old(world), Op.MoveNew(base, other.base))
      ensures ContentOf(world, base) == ContentOf(old(world), other.base) && ContentOf(world, other.base) == Empty
      ensures OthersKeep(old(world), world, other.base)
    {
      MoveNewEffect(world, base, other.base);
      ReadyToMove(world, base, other.base, tmp);
      f := NewEmpty(base);
      Swap(f, other, tmp);
    }

    /** Move assignment is a swap: the source keeps what the target had. */
    method MoveAssign(f: Wrapper, other: Wrapper, tmp: nat)
      requires Valid() && Has(f) && Has(other) && FreshBlock(world, tmp)
      requires f == other ==> !IsInline(f.base, f.data)
      modifies this, f, other
      ensures Valid() && at == old(at)
      ensures world == Do(old(world), Op.MoveAssign(f.base, other.base))
      ensures ContentOf(world, f.base) == ContentOf(old(world), other.base)
      ensures ContentOf(world, other.base) == ContentOf(old(world), f.base)
      ensures forall c :: c in old(world).headers && c != f.base && c != other.base ==> Same(old(world), world, c)
    {
      Swap(f, other, tmp);
    }

    /** The call operator; the callable it runs may change itself to `after`. */
    method Call(f: Wrapper, after: int) returns (ran: Content)
      requires Valid() && Has(f) && Callable(f.Says())
      modifies this
      ensures Valid() && at == old(at)
      ensures ran == ContentOf(old(world), f.base)
      ensures world == Do(old(world), Op.Call(f.base, after))
      ensures world.headers == old(world).headers && OthersKeep(old(world), world, f.base)
      ensures ContentOf(world, f.base) == if ran.Owned? then Owned(ran.ty, after) else ran
      ensures world.live == live && ChangesOnly(old(world), world, f.base, after)
    {
      CallEffect(world, f.base, after);
      ReadyToCall(world, f.base, after);
      ran := Run(f, after);
    }

    method Run(f: Wrapper, after: int) returns (ran: Content)
      requires Mirrors() && Has(f) && f.call != NoCall
      requires f.vtable.Some? <==> f.call.CallObject?
      requires f.vtable.Some? ==> f.data in live
      modifies this
      ensures Mirrors() && at == old(at) && world == AfterCall(old(world), f.base, after)
      ensures ran == if f.call.CallReferent? then Unowned(f.data) else Owned(f.call.ty, old(live)[f.data].val)
    {
      ghost var w := world;
      assert w.headers[f.base] == f.Says();
      match f.call {
        case CallReferent => ran := Unowned(f.data);
        case CallObject(ty) =>
          ran := Owned(ty, live[f.data].val);
          live := live[f.data := live[f.data].(val := after)];
      }
      world := AfterCall(w, f.base, after);
    }

    /** The destructor, after which the wrapper's address may be used again. */
    method Delete(f: Wrapper)
      requires Valid() && Has(f)
      modifies this, f
      ensures Valid() && at == old(at) - {f.base} && f.Says() == BLANK
      ensures world == Do(old(world), Op.Delete(f.base))
      ensures world.live == live && LosesOnly(old(world), world, f.base) && OthersKeep(old(world), world, f.base)
    {
      DeleteEffect(world, f.base);
      ReadyToDelete(world, f.base);
      Discard(f);
    }

    method Discard(f: Wrapper)
      requires Mirrors() && Has(f)
      requires f.vtable.Some? ==> f.data != 0 && f.data in live
                                  && live[f.data].ty == f.vtable.value.ty
                                  && live[f.data].onHeap == f.vtable.value.onHeap
      modifies this, f
      ensures Mirrors() && at == old(at) - {f.base} && f.Says() == BLANK
      ensures world == Without(old(world), f.base)
    {
      ghost var w := world;
      assert w.headers[f.base] == f.Says();
      if f.vtable.Some? && f.data != 0 {
        DestroyObject(f.vtable.value, f.data);
      }
      f.vtable, f.call, f.data := None, NoCall, 0;
      at := at - {f.base};
      world := Without(w, f.base);
    }
  }

  /** An in-place callable of the table's type, well placed in the block at `base`. */
  ghost predicate Sits(live: map<nat, Object>, t: Table, base: nat, p: nat) {
    && IsInline(base, p) && p in live && t == Table(live[p].ty, false)
    && !live[p].onHeap && !live[p].moved && IsType(t.ty) && t.ty.align > 0
    && p + t.ty.size <= base + BLOCK && p % t.ty.align == 0
  }

  ghost predicate Placed(live: map<nat, Object>, base: nat, vtable: Option<Table>, p: nat) {
    IsInline(base, p) ==> vtable.Some? && Sits(live, vtable.value, base, p)
  }

  /** Nothing live reaches into the block at `base`, except an inline callable at `p`. */
  ghost predicate Clear(live: map<nat, Object>, base: nat, p: nat) {
    forall q :: q in live && !(IsInline(base, p) && q == p) ==> Outside(base, q, live[q].ty.size)
  }

  /** First out of the way, second across, first back across: the net effect is the exchange. */
  lemma ThreeMoves(live: map<nat, Object>, a: nat, i: nat, b: nat, j: nat, tmp: nat)
    requires IsInline(a, a + i) && IsInline(b, b + j) && a + i in live && b + j in live
    requires (a + BLOCK <= b || b + BLOCK <= a) && (a + BLOCK <= tmp || tmp + BLOCK <= a)
    requires (b + BLOCK <= tmp || tmp + BLOCK <= b) && tmp + i !in live
    ensures var out := (live - {a + i})[tmp + i := live[a + i]];
            var across := (out - {b + j})[a + j := live[b + j]];
            (across - {tmp + i})[b + i := live[a + i]] == SwappedLive(live, a, a + i, b, b + j)
  {}

  /** Why `swap` needs two different wrappers when they hold inline callables: once the first
      callable is out of the way, the second is still there to be moved if and only if it is not
      the same one. */
  lemma SecondSourceIsLiveIff(live: map<nat, Object>, t: Table, a: nat, i: nat, u: Table, b: nat, j: nat, tmp: nat)
    requires a % BLOCK == 0 && b % BLOCK == 0 && tmp % BLOCK == 0 && tmp != a && tmp != b
    requires Sits(live, t, a, a + i) && Sits(live, u, b, b + j) && (a == b ==> i == j)
    ensures b + j in (live - {a + i})[tmp + i := live[a + i]] <==> a != b
  {
    BlocksApart(tmp, b);
    if a != b {
      BlocksApart(a, b);
    }
  }

  /** A block that was free still is after an empty wrapper was put elsewhere. */
  lemma ReadyToMove(w: World, a: nat, b: nat, tmp: nat)
    requires WellFormed(w) && FreshBlock(w, a) && FreshBlock(w, tmp) && tmp != a && b in w.headers
    ensures FreshBlock(WithEmpty(w, a), tmp) && WellFormed(WithEmpty(w, a))
    ensures Do(w, Op.MoveNew(a, b)) == Swapped(WithEmpty(w, a), a, b)
  {
    EmptyKeeps(w, a);
  }

  /** Ownership gives the call operator a live callable, or one that is not its own. */
  lemma ReadyToCall(w: World, a: nat, after: int)
    requires WellFormed(w) && a in w.headers && Callable(w.headers[a])
    ensures var h := w.headers[a];
            && (h.vtable.Some? <==> h.call.CallObject?) && (h.vtable.Some? ==> h.data in w.live)
            && WellFormed(AfterCall(w, a, after)) && AfterCall(w, a, after) == Do(w, Op.Call(a, after))
            && ContentOf(w, a) == if h.call.CallReferent? then Unowned(h.data) else Owned(h.call.ty, w.live[h.data].val)
  {
    assert HeaderOk(w, a);
    if w.headers[a].vtable.Some? {
      CallKeeps(w, a, after);
    }
  }

  /** Ownership gives the destructor a live object of its table's kind. */
  lemma ReadyToDelete(w: World, a: nat)
    requires WellFormed(w) && a in w.headers
    ensures var h := w.headers[a];
            h.vtable.Some? ==> h.data != 0 && h.data in w.live
                               && w.live[h.data].ty == h.vtable.value.ty
                               && w.live[h.data].onHeap == h.vtable.value.onHeap
    ensures WellFormed(Without(w, a)) && Without(w, a) == Do(w, Op.Delete(a))
  {
    assert HeaderOk(w, a);
    DeleteKeeps(w, a);
  }

  /** Ownership gives `swap` exactly the memory it needs. */
  lemma ReadyToSwap(w: World, a: nat, b: nat, tmp: nat)
    requires WellFormed(w) && a in w.headers && b in w.headers && FreshBlock(w, tmp)
    ensures Ready(w, a) && Ready(w, b) && Clear(w.live, tmp, 0)
  {
    assert HeaderOk(w, a) && HeaderOk(w, b);
    OthersOutside(w, a);
    OthersOutside(w, b);
    OthersOutside(w, tmp);
  }

  ghost predicate Ready(w: World, c: nat) {
    && c in w.headers && c % BLOCK == 0
    && Placed(w.live, c, w.headers[c].vtable, w.headers[c].data) && Clear(w.live, c, w.headers[c].data)
  }

  /** Every live object except a wrapper's own inline one lies outside that wrapper's block, and
      all of them lie outside a fresh block. */
  lemma OthersOutside(w: World, c: nat)
    requires WellFormed(w) && (c in w.headers || FreshBlock(w, c))
    ensures forall q :: q in w.live && !(c in w.headers && IsInline(c, w.headers[c].data) && q == w.headers[c].data) ==>
              Outside(c, q, w.live[q].ty.size)
  {
    forall q | q in w.live && !(c in w.headers && IsInline(c, w.headers[c].data) && q == w.headers[c].data)
      ensures Outside(c, q, w.live[q].ty.size)
    {
      var d :| Owner(w, d, q);
      assert HeaderOk(w, d);
      if c != d {
        BlocksApart(c, d);
      }
    }
  }
}

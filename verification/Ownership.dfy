/** Every sequence of constructions, moves, assignments, calls and destructions of
    tcx::unique_function objects keeps ownership whole and leaks nothing. */
module Ownership {
  import opened Collections
  import opened Layout
  import opened CallableStore

  /** A place for a new wrapper: aligned, and clear of the heap and of everything referred to. */
  ghost predicate FreshBlock(w: World, a: nat) {
    && a > 0 && a % BLOCK == 0 && a !in w.headers
    && (forall p :: p in w.live && w.live[p].onHeap ==> Outside(a, p, w.live[p].ty.size))
    && (forall b :: b in w.headers && w.headers[b].call.CallReferent? ==> Outside(a, w.headers[b].data, 1))
  }

  /** What the allocator promises of a new heap object. */
  ghost predicate FreshHeap(w: World, h: nat, ty: Type) {
    && h != 0 && OutsideAll(w, h, ty.size)
    && forall p :: p in w.live && w.live[p].onHeap ==> Apart(h, ty.size, p, w.live[p].ty.size)
  }

  function WithEmpty(w: World, a: nat): World { w.(headers := w.headers[a := BLANK]) }

  function WithReferent(w: World, a: nat, target: nat): World {
    w.(headers := w.headers[a := Header(None, CallReferent, target)])
  }

  function WithObject(w: World, a: nat, ty: Type, val: int, h: nat): World
    requires ty.align > 0
  {
    var place := Place(a, ty);
    var p := if place.Some? then place.value else h;
    World(w.live[p := Object(ty, val, place.None?, false)],
          w.headers[a := Header(Some(Table(ty, place.None?)), CallObject(ty), p)])
  }

  /** A call may change the callable it runs. */
  function AfterCall(w: World, a: nat, val: int): World
    requires a in w.headers && (w.headers[a].vtable.Some? ==> w.headers[a].data in w.live)
  {
    var h := w.headers[a];
    if h.vtable.Some? then w.(live := w.live[h.data := w.live[h.data].(val := val)]) else w
  }

  function Without(w: World, a: nat): World
    requires a in w.headers
  {
    var h := w.headers[a];
    World(if h.vtable.Some? then w.live - {h.data} else w.live, w.headers - {a})
  }

  datatype Op =
    | NewEmpty(a: nat)
    | NewReferent(a: nat, target: nat)
    | NewObject(a: nat, ty: Type, val: int, h: nat)
    | MoveNew(a: nat, b: nat)
    | MoveAssign(a: nat, b: nat)
    | Call(a: nat, result: int)
    | Delete(a: nat)

  /** There is something to call: an empty wrapper and a null function pointer are not called. */
  predicate Callable(h: Header) { h.call != NoCall && (h.call.CallReferent? ==> h.data != 0) }

  /** What the source asks of its callers, the allocator and the stack. A wrapper is not assigned to
      itself while its callable is inline. */
  ghost predicate CanDo(w: World, op: Op) {
    match op
    case NewEmpty(a) => FreshBlock(w, a)
    case NewReferent(a, target) => FreshBlock(w, a) && OutsideAll(WithEmpty(w, a), target, 1)
    case NewObject(a, ty, _, h) => FreshBlock(w, a) && IsType(ty) && FreshHeap(WithEmpty(w, a), h, ty)
    case MoveNew(a, b) => FreshBlock(w, a) && b in w.headers
    case MoveAssign(a, b) => a in w.headers && b in w.headers && (a == b ==> !IsInline(a, w.headers[a].data))
    case Call(a, _) => a in w.headers && Callable(w.headers[a])
    case Delete(a) => a in w.headers
  }

  lemma TypeHasAlignment(ty: Type)
    requires IsType(ty)
    ensures ty.align > 0
  {
    PlaceIsLeast(0, ty);
  }

  ghost function Do(w: World, op: Op): World
    requires WellFormed(w) && CanDo(w, op)
  {
    match op
    case NewEmpty(a) => WithEmpty(w, a)
    case NewReferent(a, target) => WithReferent(w, a, target)
    case NewObject(a, ty, val, h) => TypeHasAlignment(ty); WithObject(w, a, ty, val, h)
    case MoveNew(a, b) => EmptyKeeps(w, a); Swapped(WithEmpty(w, a), a, b)
    case MoveAssign(a, b) => if a == b then w else Swapped(w, a, b)
    case Call(a, val) => assert HeaderOk(w, a); AfterCall(w, a, val)
    case Delete(a) => Without(w, a)
  }

  /** A new wrapper does not disturb the ones there are. */
  lemma NewBlockKeepsHeaders(w: World, a: nat, w': World, c: nat)
    requires HeadersOk(w) && FreshBlock(w, a) && c in w.headers
    requires w'.headers.Keys == w.headers.Keys + {a} && w'.headers[c] == w.headers[c]
    requires w.headers[c].vtable.Some? && w.headers[c].data in w.live ==>
               w.headers[c].data in w'.live && w'.live[w.headers[c].data] == w.live[w.headers[c].data]
    ensures HeaderOk(w', c)
  {
    assert HeaderOk(w, c);
    var h := w.headers[c];
    if h.vtable.Some? && h.vtable.value.onHeap {
      assert Outside(a, h.data, h.vtable.value.ty.size);
    }
  }

  lemma EmptyKeeps(w: World, a: nat)
    requires WellFormed(w) && FreshBlock(w, a)
    ensures WellFormed(WithEmpty(w, a))
  {
    var w' := WithEmpty(w, a);
    forall c | c in w'.headers ensures c > 0 && c % BLOCK == 0 && HeaderOk(w', c) {
      if c != a { NewBlockKeepsHeaders(w, a, w', c); }
    }
    forall p | p in w'.live ensures exists c :: Owner(w', c, p) {
      var c :| Owner(w, c, p);
      assert Owner(w', c, p);
    }
    forall c, d, p | Owner(w', c, p) && Owner(w', d, p) ensures c == d {
      assert Owner(w, c, p) && Owner(w, d, p);
    }
  }

  lemma ReferentKeeps(w: World, a: nat, target: nat)
    requires WellFormed(w) && CanDo(w, NewReferent(a, target))
    ensures WellFormed(WithReferent(w, a, target))
  {
    var w' := WithReferent(w, a, target);
    assert forall b :: b in w'.headers ==> b in WithEmpty(w, a).headers;
    forall c | c in w'.headers ensures c > 0 && c % BLOCK == 0 && HeaderOk(w', c) {
      if c != a { NewBlockKeepsHeaders(w, a, w', c); }
    }
    forall p | p in w'.live ensures exists c :: Owner(w', c, p) {
      var c :| Owner(w, c, p);
      assert Owner(w', c, p);
    }
    forall c, d, p | Owner(w', c, p) && Owner(w', d, p) ensures c == d {
      assert Owner(w, c, p) && Owner(w, d, p);
    }
  }

  /** The place chosen for a new callable, in the storage or on the heap, is not in use. */
  lemma NewPlaceIsFree(w: World, a: nat, ty: Type, h: nat, p: nat)
    requires WellFormed(w) && CanDo(w, NewObject(a, ty, 0, h)) && ty.align > 0
    requires p == if Place(a, ty).Some? then Place(a, ty).value else h
    ensures p !in w.live
    ensures forall q :: q in w.live ==> Apart(p, ty.size, q, w.live[q].ty.size)
    ensures Place(a, ty).Some? ==> a + HEADER <= p && p + ty.size <= a + BLOCK && p % ty.align == 0
  {
    PlaceIsLeast(a, ty);
    forall q | q in w.live ensures Apart(p, ty.size, q, w.live[q].ty.size) && q != p {
      var c :| Owner(w, c, q);
      assert HeaderOk(w, c);
      BlocksApart(a, c);
      assert c in WithEmpty(w, a).headers;
      if w.live[q].onHeap {
        assert Outside(a, q, w.live[q].ty.size);
      } else if Place(a, ty).None? {
        assert Outside(c, p, ty.size);
      }
    }
  }

  lemma ObjectKeepsHeaders(w: World, a: nat, ty: Type, val: int, h: nat)
    requires WellFormed(w) && CanDo(w, NewObject(a, ty, val, h)) && ty.align > 0
    ensures HeadersOk(WithObject(w, a, ty, val, h))
  {
    var w' := WithObject(w, a, ty, val, h);
    NewPlaceIsFree(w, a, ty, h, w'.headers[a].data);
    assert forall b :: b in w'.headers ==> b in WithEmpty(w, a).headers;
    forall c | c in w'.headers ensures c > 0 && c % BLOCK == 0 && HeaderOk(w', c) {
      if c != a { NewBlockKeepsHeaders(w, a, w', c); }
    }
  }

  lemma ObjectKeepsOwners(w: World, a: nat, ty: Type, val: int, h: nat)
    requires HeadersOk(w) && OneOwner(w) && Claimed(w) && a !in w.headers && ty.align > 0
    requires WithObject(w, a, ty, val, h).headers[a].data !in w.live
    ensures OneOwner(WithObject(w, a, ty, val, h)) && Claimed(WithObject(w, a, ty, val, h))
  {
    var w' := WithObject(w, a, ty, val, h);
    var p := w'.headers[a].data;
    forall q | q in w'.live ensures exists c :: Owner(w', c, q) {
      if q == p {
        assert Owner(w', a, q);
      } else {
        var c :| Owner(w, c, q);
        assert Owner(w', c, q);
      }
    }
    forall c, d, q | Owner(w', c, q) && Owner(w', d, q) ensures c == d {
      if c != a { assert Owner(w, c, q) && HeaderOk(w, c); }
      if d != a { assert Owner(w, d, q) && HeaderOk(w, d); }
    }
  }

  lemma ObjectKeeps(w: World, a: nat, ty: Type, val: int, h: nat)
    requires WellFormed(w) && CanDo(w, NewObject(a, ty, val, h)) && ty.align > 0
    ensures WellFormed(WithObject(w, a, ty, val, h))
  {
    var w' := WithObject(w, a, ty, val, h);
    var p := w'.headers[a].data;
    NewPlaceIsFree(w, a, ty, h, p);
    ObjectKeepsHeaders(w, a, ty, val, h);
    ObjectKeepsOwners(w, a, ty, val, h);
    HeapApartWith(w, p, w'.live[p]);
  }

  lemma HeapApartWith(w: World, p: nat, o: Object)
    requires HeapApart(w) && p !in w.live && forall q :: q in w.live ==> Apart(p, o.ty.size, q, w.live[q].ty.size)
    ensures HeapApart(w.(live := w.live[p := o]))
  {}

  lemma CallKeeps(w: World, a: nat, val: int)
    requires WellFormed(w) && a in w.headers && w.headers[a].vtable.Some?
    ensures w.headers[a].data in w.live && WellFormed(AfterCall(w, a, val))
  {
    assert HeaderOk(w, a);
    var w' := AfterCall(w, a, val);
    assert w'.live.Keys == w.live.Keys;
    forall c | c in w'.headers ensures c > 0 && c % BLOCK == 0 && HeaderOk(w', c) {
      assert HeaderOk(w, c);
    }
    forall p | p in w'.live ensures exists c :: Owner(w', c, p) {
      var c :| Owner(w, c, p);
      assert Owner(w', c, p);
    }
    forall c, d, p | Owner(w', c, p) && Owner(w', d, p) ensures c == d {
      assert Owner(w, c, p) && Owner(w, d, p);
    }
  }

  lemma DeleteKeeps(w: World, a: nat)
    requires WellFormed(w) && a in w.headers
    ensures WellFormed(Without(w, a))
  {
    var w' := Without(w, a);
    assert HeaderOk(w, a);
    forall c | c in w'.headers ensures c > 0 && c % BLOCK == 0 && HeaderOk(w', c) {
      assert HeaderOk(w, c);
      if w.headers[c].vtable.Some? {
        assert Owner(w, c, w.headers[c].data);
        assert !Owner(w, a, w.headers[c].data);
      }
    }
    forall p | p in w'.live ensures exists c :: Owner(w', c, p) {
      var c :| Owner(w, c, p);
      assert Owner(w', c, p);
    }
    forall c, d, p | Owner(w', c, p) && Owner(w', d, p) ensures c == d {
      assert Owner(w, c, p) && Owner(w, d, p);
    }
  }

  /** Every operation keeps ownership whole. */
  lemma DoKeepsWellFormed(w: World, op: Op)
    requires WellFormed(w) && CanDo(w, op)
    ensures WellFormed(Do(w, op))
  {
    match op
    case NewEmpty(a) => EmptyKeeps(w, a);
    case NewReferent(a, target) => ReferentKeeps(w, a, target);
    case NewObject(a, ty, val, h) => TypeHasAlignment(ty); ObjectKeeps(w, a, ty, val, h);
    case MoveNew(a, b) => EmptyKeeps(w, a); SwapKeepsWellFormed(WithEmpty(w, a), a, b);
    case MoveAssign(a, b) => if a != b { SwapKeepsWellFormed(w, a, b); }
    case Call(a, val) =>
      if w.headers[a].vtable.Some? {
        CallKeeps(w, a, val);
      }
    case Delete(a) => DeleteKeeps(w, a);
  }

  // ----- Counting

  ghost function Owners(w: World): set<nat> {
    set a | a in w.headers && w.headers[a].vtable.Some?
  }

  lemma OneLess<V>(m: map<nat, V>, k: nat)
    requires k in m
    ensures |m - {k}| == |m| - 1
  {
    assert (m - {k}).Keys == m.Keys - {k};
    assert |(m - {k}).Keys| == |m.Keys| - 1;
  }

  lemma DeleteOwners(w: World, a: nat)
    requires a in w.headers
    ensures Owners(Without(w, a)) == Owners(w) - {a}
  {}

  lemma DeleteCounts(w: World, a: nat)
    requires WellFormed(w) && a in w.headers
    ensures |Without(w, a).headers| == |w.headers| - 1 && Owners(Without(w, a)) == Owners(w) - {a}
    ensures |Without(w, a).live| == |w.live| - if a in Owners(w) then 1 else 0
  {
    DeleteOwners(w, a);
    OneLess(w.headers, a);
    if w.headers[a].vtable.Some? {
      assert HeaderOk(w, a);
      OneLess(w.live, w.headers[a].data);
    }
  }

  lemma NobodyHome(w: World)
    requires Claimed(w) && w.headers == map[]
    ensures w.live == map[]
  {
    assert forall a, p :: !Owner(w, a, p);
    assert w.live.Keys == {};
  }

  /** There are exactly as many live callables as wrappers that own one. */
  lemma {:induction false} LiveAsOwned(w: World)
    requires WellFormed(w)
    ensures |w.live| == |Owners(w)|
    decreases |w.headers|
  {
    if w.headers == map[] {
      NobodyHome(w);
      assert Owners(w) == {};
    } else {
      var a :| a in w.headers;
      DeleteKeeps(w, a);
      DeleteCounts(w, a);
      LiveAsOwned(Without(w, a));
    }
  }

  lemma SwapOwns(w: World, a: nat, b: nat, c: nat)
    requires HeadersOk(w) && a in w.headers && b in w.headers && a != b
    ensures c in Owners(Swapped(w, a, b)) <==> Former(a, b, c) in Owners(w)
  {
    SwapOwners(w, a, b, a);
    if c in w.headers {
      SwapOwners(w, a, b, c);
    }
  }

  lemma SwapOwnerSet(w: World, a: nat, b: nat)
    requires HeadersOk(w) && a in w.headers && b in w.headers && a != b
    ensures var rest := Owners(w) - {a, b};
            && Owners(Swapped(w, a, b))
                 == rest + (if b in Owners(w) then {a} else {}) + (if a in Owners(w) then {b} else {})
            && Owners(w) == rest + (if a in Owners(w) then {a} else {}) + (if b in Owners(w) then {b} else {})
  {
    var before, after := Owners(w), Owners(Swapped(w, a, b));
    forall c ensures c in after <==> Former(a, b, c) in before {
      SwapOwns(w, a, b, c);
    }
    assert a in after <==> b in before;
    assert b in after <==> a in before;
  }

  lemma SwapKeepsCount(w: World, a: nat, b: nat)
    requires WellFormed(w) && a in w.headers && b in w.headers && a != b && WellFormed(Swapped(w, a, b))
    ensures |Swapped(w, a, b).live| == |w.live|
  {
    LiveAsOwned(w);
    LiveAsOwned(Swapped(w, a, b));
    SwapOwnerSet(w, a, b);
    var rest := Owners(w) - {a, b};
    TwoMore(rest, a, b, b in Owners(w), a in Owners(w));
    TwoMore(rest, a, b, a in Owners(w), b in Owners(w));
  }

  lemma TwoMore(rest: set<nat>, a: nat, b: nat, first: bool, second: bool)
    requires a !in rest && b !in rest && a != b
    ensures |rest + (if first then {a} else {}) + (if second then {b} else {})|
              == |rest| + (if first then 1 else 0) + (if second then 1 else 0)
  {
    var one := rest + (if first then {a} else {});
    assert |one| == |rest| + if first then 1 else 0;
    if second {
      assert one + {b} == {b} + one;
    } else {
      assert one + {} == one;
    }
  }

  function Born(op: Op): int { if op.NewObject? then 1 else 0 }

  function Died(w: World, op: Op): int {
    if op.Delete? && op.a in w.headers && w.headers[op.a].vtable.Some? then 1 else 0
  }

  lemma ObjectCounts(w: World, a: nat, ty: Type, val: int, h: nat)
    requires WellFormed(w) && CanDo(w, NewObject(a, ty, val, h)) && ty.align > 0
    ensures |WithObject(w, a, ty, val, h).live| == |w.live| + 1
  {
    var w' := WithObject(w, a, ty, val, h);
    var p := w'.headers[a].data;
    NewPlaceIsFree(w, a, ty, h, p);
    assert w'.live.Keys == w.live.Keys + {p};
    assert |w'.live.Keys| == |w.live.Keys| + 1;
  }

  lemma CallCounts(w: World, a: nat, val: int)
    requires a in w.headers && (w.headers[a].vtable.Some? ==> w.headers[a].data in w.live)
    ensures |AfterCall(w, a, val).live| == |w.live|
  {
    assert AfterCall(w, a, val).live.Keys == w.live.Keys;
    assert |AfterCall(w, a, val).live.Keys| == |w.live.Keys|;
  }

  /** One more callable after a construction, one fewer after an owner dies, and the same number
      after any move: what is move-constructed is paired with the destruction of its source. */
  lemma DoCounts(w: World, op: Op)
    requires WellFormed(w) && CanDo(w, op)
    ensures |Do(w, op).live| == |w.live| + Born(op) - Died(w, op)
  {
    match op
    case NewObject(a, ty, val, h) => TypeHasAlignment(ty); ObjectCounts(w, a, ty, val, h);
    case MoveNew(a, b) =>
      EmptyKeeps(w, a);
      SwapKeepsWellFormed(WithEmpty(w, a), a, b);
      SwapKeepsCount(WithEmpty(w, a), a, b);
    case MoveAssign(a, b) =>
      if a != b {
        SwapKeepsWellFormed(w, a, b);
        SwapKeepsCount(w, a, b);
      }
    case Delete(a) => DeleteCounts(w, a);
    case Call(a, val) => assert HeaderOk(w, a); CallCounts(w, a, val);
    case _ =>
  }

  // ----- Whole lives

  const NOTHING := World(map[], map[])

  /** `worlds` is what memory goes through when `ops` are carried out, one after the other. */
  ghost predicate IsLife(worlds: seq<World>, ops: seq<Op>) {
    && |worlds| == |ops| + 1 && worlds[0] == NOTHING
    && forall i :: 0 <= i < |ops| && WellFormed(worlds[i]) ==>
         CanDo(worlds[i], ops[i]) && worlds[i + 1] == Do(worlds[i], ops[i])
  }

  function Births(ops: seq<Op>, k: nat): int
    requires k <= |ops|
  {
    if k == 0 then 0 else Births(ops, k - 1) + Born(ops[k - 1])
  }

  function Deaths(worlds: seq<World>, ops: seq<Op>, k: nat): int
    requires k <= |ops| < |worlds|
  {
    if k == 0 then 0 else Deaths(worlds, ops, k - 1) + Died(worlds[k - 1], ops[k - 1])
  }

  lemma NextOfLife(worlds: seq<World>, ops: seq<Op>, k: nat)
    requires IsLife(worlds, ops) && k < |ops| && WellFormed(worlds[k])
    ensures WellFormed(worlds[k + 1])
    ensures |worlds[k + 1].live| == |worlds[k].live| + Born(ops[k]) - Died(worlds[k], ops[k])
  {
    assert CanDo(worlds[k], ops[k]) && worlds[k + 1] == Do(worlds[k], ops[k]);
    DoKeepsWellFormed(worlds[k], ops[k]);
    DoCounts(worlds[k], ops[k]);
  }

  /** Over any sequence of operations: ownership stays whole, the callables alive are exactly the
      constructed ones not yet destroyed, and once every wrapper is gone none is left alive. */
  lemma {:induction false} OwnershipForLife(worlds: seq<World>, ops: seq<Op>, k: nat)
    requires IsLife(worlds, ops) && k <= |ops|
    ensures WellFormed(worlds[k])
    ensures |worlds[k].live| == |Owners(worlds[k])| == Births(ops, k) - Deaths(worlds, ops, k)
    ensures worlds[k].headers == map[] ==> worlds[k].live == map[] && Births(ops, k) == Deaths(worlds, ops, k)
  {
    if k > 0 {
      OwnershipForLife(worlds, ops, k - 1);
      NextOfLife(worlds, ops, k - 1);
    }
    LiveAsOwned(worlds[k]);
    if worlds[k].headers == map[] {
      NobodyHome(worlds[k]);
    }
  }
}

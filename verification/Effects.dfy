/** What each operation on tcx::unique_function objects does, as a user sees it: what the wrapper it
    is about holds afterwards, where a new callable is put, and that nothing else changes. */
module Effects {
  import opened Collections
  import opened Layout
  import opened CallableStore
  import opened Ownership

  /** What a wrapper holds, by its header and the live objects. */
  lemma ContentMeaning(w: World, a: nat, ty: Type, val: int, target: nat)
    requires WellFormed(w) && a in w.headers
    ensures ContentOf(w, a) == Empty <==> w.headers[a].call == NoCall
    ensures ContentOf(w, a) == Unowned(target) <==> w.headers[a].call == CallReferent && w.headers[a].data == target
    ensures ContentOf(w, a) == Owned(ty, val) <==>
              exists p :: p in w.live && Owner(w, a, p) && w.live[p].ty == ty && w.live[p].val == val
  {
    assert HeaderOk(w, a);
    if w.headers[a].vtable.Some? {
      assert Owner(w, a, w.headers[a].data);
    }
  }

  /** Wrapper `c` holds in `w'` what it held in `w`. */
  ghost predicate Same(w: World, w': World, c: nat) {
    WellFormed(w) && WellFormed(w') && c in w.headers && c in w'.headers && ContentOf(w', c) == ContentOf(w, c)
  }

  /** Every wrapper but the one at `a` holds what it held. */
  ghost predicate OthersKeep(w: World, w': World, a: nat) {
    forall c :: c in w.headers && c != a ==> Same(w, w', c)
  }

  lemma SameHeader(w: World, w': World, c: nat)
    requires WellFormed(w) && WellFormed(w') && c in w.headers && c in w'.headers && w'.headers[c] == w.headers[c]
    requires w.headers[c].vtable.Some? ==> w.headers[c].data in w.live && w.headers[c].data in w'.live
                                            && w'.live[w.headers[c].data] == w.live[w.headers[c].data]
    ensures Same(w, w', c)
  {
    assert HeaderOk(w, c);
  }

  // ----- Construction

  lemma EmptyEffect(w: World, a: nat)
    requires WellFormed(w) && CanDo(w, NewEmpty(a))
    ensures var w' := Do(w, NewEmpty(a));
            && WellFormed(w') && w'.headers.Keys == w.headers.Keys + {a}
            && ContentOf(w', a) == Empty && w'.live == w.live && OthersKeep(w, w', a)
  {
    var w' := Do(w, NewEmpty(a));
    DoKeepsWellFormed(w, NewEmpty(a));
    forall c | c in w.headers ensures Same(w, w', c) {
      assert HeaderOk(w, c);
      SameHeader(w, w', c);
    }
  }

  lemma ReferentEffect(w: World, a: nat, target: nat)
    requires WellFormed(w) && CanDo(w, NewReferent(a, target))
    ensures var w' := Do(w, NewReferent(a, target));
            && WellFormed(w') && w'.headers.Keys == w.headers.Keys + {a}
            && ContentOf(w', a) == Unowned(target) && w'.live == w.live && OthersKeep(w, w', a)
  {
    var w' := Do(w, NewReferent(a, target));
    DoKeepsWellFormed(w, NewReferent(a, target));
    forall c | c in w.headers ensures Same(w, w', c) {
      assert HeaderOk(w, c);
      SameHeader(w, w', c);
    }
  }

  /** A new callable at `p`: in the storage at the least address with room for it, when it moves
      without throwing and there is such an address; otherwise on the heap at `h`. */
  ghost predicate PutRight(a: nat, ty: Type, h: nat, p: nat, onHeap: bool) {
    if ty.nothrowMove && exists q: nat :: RoomAt(a, ty, q)
    then !onHeap && RoomAt(a, ty, p) && forall q: nat :: RoomAt(a, ty, q) ==> p <= q
    else onHeap && p == h
  }

  lemma ObjectEffect(w: World, a: nat, ty: Type, val: int, h: nat)
    requires WellFormed(w) && CanDo(w, NewObject(a, ty, val, h))
    ensures var w' := Do(w, NewObject(a, ty, val, h));
            && WellFormed(w') && w'.headers.Keys == w.headers.Keys + {a}
            && ContentOf(w', a) == Owned(ty, val) && |w'.live| == |w.live| + 1 && OthersKeep(w, w', a)
            && w'.headers[a].data in w'.live
            && PutRight(a, ty, h, w'.headers[a].data, w'.live[w'.headers[a].data].onHeap)
  {
    var op := NewObject(a, ty, val, h);
    DoKeepsWellFormed(w, op);
    DoCounts(w, op);
    TypeHasAlignment(ty);
    ObjectWorld(w, Do(w, op), a, ty, val, h);
    PlaceIsRoom(a, ty);
  }

  lemma ObjectWorld(w: World, w': World, a: nat, ty: Type, val: int, h: nat)
    requires WellFormed(w) && CanDo(w, NewObject(a, ty, val, h)) && ty.align > 0
    requires w' == WithObject(w, a, ty, val, h) && WellFormed(w')
    ensures w'.headers.Keys == w.headers.Keys + {a} && ContentOf(w', a) == Owned(ty, val) && OthersKeep(w, w', a)
  {
    var p := w'.headers[a].data;
    PlaceIsNew(w, w', a, ty, val, h);
    forall c | c in w.headers ensures Same(w, w', c) {
      ObjectElsewhere(w, w', a, p, c);
    }
  }

  lemma PlaceIsNew(w: World, w': World, a: nat, ty: Type, val: int, h: nat)
    requires WellFormed(w) && CanDo(w, NewObject(a, ty, val, h)) && ty.align > 0
    requires w' == WithObject(w, a, ty, val, h)
    ensures a in w'.headers && w'.headers[a].data !in w.live && w'.headers[a].data in w'.live
    ensures w'.live == w.live[w'.headers[a].data := w'.live[w'.headers[a].data]]
    ensures w'.live[w'.headers[a].data].val == val && w'.headers == w.headers[a := w'.headers[a]]
  {
    NewPlaceIsFree(w, a, ty, h, w'.headers[a].data);
  }

  lemma ObjectElsewhere(w: World, w': World, a: nat, p: nat, c: nat)
    requires WellFormed(w) && WellFormed(w') && a !in w.headers && p !in w.live && c in w.headers
    requires p in w'.live && a in w'.headers
    requires w'.live == w.live[p := w'.live[p]] && w'.headers == w.headers[a := w'.headers[a]]
    ensures Same(w, w', c)
  {
    assert HeaderOk(w, c);
    SameHeader(w, w', c);
  }

  // ----- Moves

  /** A move-constructed wrapper holds what its source held, and its source nothing. */
  lemma MoveNewEffect(w: World, a: nat, b: nat)
    requires WellFormed(w) && CanDo(w, MoveNew(a, b))
    ensures var w' := Do(w, MoveNew(a, b));
            && WellFormed(w') && w'.headers.Keys == w.headers.Keys + {a}
            && ContentOf(w', a) == ContentOf(w, b) && ContentOf(w', b) == Empty && OthersKeep(w, w', b)
  {
    EmptyEffect(w, a);
    var w1 := Do(w, NewEmpty(a));
    SwapExchanges(w1, a, b);
    assert Same(w, w1, b);
    forall c | c in w.headers && c != b ensures Same(w, Swapped(w1, a, b), c) {
      assert Same(w, w1, c);
    }
  }

  /** After an assignment the target holds what the source held, and the other way round. */
  lemma MoveAssignEffect(w: World, a: nat, b: nat)
    requires WellFormed(w) && CanDo(w, MoveAssign(a, b))
    ensures var w' := Do(w, MoveAssign(a, b));
            && WellFormed(w') && w'.headers.Keys == w.headers.Keys
            && ContentOf(w', a) == ContentOf(w, b) && ContentOf(w', b) == ContentOf(w, a)
            && forall c :: c in w.headers && c != a && c != b ==> Same(w, w', c)
  {
    if a != b {
      SwapExchanges(w, a, b);
    }
  }

  // ----- Calls and destruction

  /** Every live object that the wrapper at `a` does not own is as it was. */
  ghost predicate OnlyItsOwn(w: World, w': World, a: nat) {
    forall p :: p in w.live && !Owner(w, a, p) ==> p in w'.live && w'.live[p] == w.live[p]
  }

  /** Then every other wrapper whose header is as it was holds what it held. */
  lemma OthersUnaffected(w: World, w': World, a: nat, c: nat)
    requires WellFormed(w) && WellFormed(w') && OnlyItsOwn(w, w', a)
    requires a in w.headers && c in w.headers && c != a && c in w'.headers && w'.headers[c] == w.headers[c]
    ensures Same(w, w', c)
  {
    assert HeaderOk(w, c);
    if w.headers[c].vtable.Some? {
      assert Owner(w, c, w.headers[c].data) && !Owner(w, a, w.headers[c].data);
    }
    SameHeader(w, w', c);
  }

  /** The objects after a call: only the state of the callable that ran has changed. */
  ghost predicate ChangesOnly(w: World, w': World, a: nat, val: int) {
    && w'.live.Keys == w.live.Keys && OnlyItsOwn(w, w', a)
    && forall p :: p in w.live && p in w'.live && Owner(w, a, p) ==> w'.live[p] == w.live[p].(val := val)
  }

  lemma CallChanges(w: World, a: nat, val: int)
    requires WellFormed(w) && CanDo(w, Call(a, val))
    ensures Do(w, Call(a, val)).headers == w.headers && ChangesOnly(w, Do(w, Call(a, val)), a, val)
  {
    assert HeaderOk(w, a);
  }

  /** A call may change the state of the callable it runs, and changes nothing else: no header, no
      other object, and of its own object only the state. */
  lemma CallEffect(w: World, a: nat, val: int)
    requires WellFormed(w) && CanDo(w, Call(a, val))
    ensures var w' := Do(w, Call(a, val));
            && WellFormed(w') && w'.headers == w.headers && OthersKeep(w, w', a) && ChangesOnly(w, w', a, val)
            && ContentOf(w', a) == (if ContentOf(w, a).Owned? then Owned(ContentOf(w, a).ty, val) else ContentOf(w, a))
  {
    var w' := Do(w, Call(a, val));
    DoKeepsWellFormed(w, Call(a, val));
    CallChanges(w, a, val);
    assert HeaderOk(w, a);
    forall c | c in w.headers && c != a ensures Same(w, w', c) {
      OthersUnaffected(w, w', a, c);
    }
  }

  /** The objects after a destruction: the wrapper's own is gone, all others are as they were. */
  ghost predicate LosesOnly(w: World, w': World, a: nat) {
    OnlyItsOwn(w, w', a) && forall p :: p in w'.live ==> p in w.live && !Owner(w, a, p)
  }

  lemma DeleteLoses(w: World, a: nat)
    requires WellFormed(w) && a in w.headers
    ensures LosesOnly(w, Do(w, Delete(a)), a)
  {
    assert HeaderOk(w, a);
  }

  /** A wrapper that goes takes along what it owns, and nothing else. */
  lemma DeleteEffect(w: World, a: nat)
    requires WellFormed(w) && a in w.headers
    ensures var w' := Do(w, Delete(a));
            && WellFormed(w') && w'.headers.Keys == w.headers.Keys - {a}
            && |w'.live| == |w.live| - Bit(ContentOf(w, a).Owned?)
            && Died(w, Delete(a)) == Bit(ContentOf(w, a).Owned?)
            && LosesOnly(w, w', a) && OthersKeep(w, w', a)
  {
    var w' := Do(w, Delete(a));
    DoKeepsWellFormed(w, Delete(a));
    DoCounts(w, Delete(a));
    DeleteLoses(w, a);
    assert HeaderOk(w, a);
    forall c | c in w.headers && c != a ensures Same(w, w', c) {
      OthersUnaffected(w, w', a, c);
    }
  }
}

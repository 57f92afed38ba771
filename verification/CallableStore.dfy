/** The memory that tcx::unique_function works on, as values: which callables are alive at
    which addresses, and what each wrapper's header says. A wrapper is named by its address.

    `WellFormed` is ownership: every wrapper points at nothing, at something it does not own, or
    at its own live callable, and every live callable has exactly one owner. */
module CallableStore {
  import opened Collections
  import opened Layout

  /** A live object. `moved` objects have been moved from and only wait to be destroyed. */
  datatype Object = Object(ty: Type, val: int, onHeap: bool, moved: bool)

  /** The two static tables of a type: one destroys in place, the other deletes. */
  datatype Table = Table(ty: Type, onHeap: bool)

  datatype Entry = NoCall | CallReferent | CallObject(ty: Type)

  datatype Header = Header(vtable: Option<Table>, call: Entry, data: nat)

  const BLANK := Header(None, NoCall, 0)

  datatype World = World(live: map<nat, Object>, headers: map<nat, Header>)

  /** What calling a wrapper would run. */
  datatype Content = Empty | Unowned(target: nat) | Owned(ty: Type, val: int)

  /** The test `swap` makes on the data pointer. */
  predicate IsInline(base: nat, data: nat) { data != 0 && base + HEADER <= data < base + BLOCK }

  predicate Outside(base: nat, p: nat, size: nat) { p + size <= base || base + BLOCK <= p }

  predicate Apart(p: nat, size: nat, q: nat, size': nat) { p + size <= q || q + size' <= p }

  ghost predicate OutsideAll(w: World, p: nat, size: nat) {
    forall b :: b in w.headers ==> Outside(b, p, size)
  }

  /** The wrapper at `a` owns a live callable of the kind its table is for, in place or on the heap. */
  ghost predicate OwnsWell(w: World, a: nat, t: Table)
    requires a in w.headers
  {
    var h := w.headers[a];
    && h.data in w.live
    && w.live[h.data].ty == t.ty && w.live[h.data].onHeap == t.onHeap && !w.live[h.data].moved
    && h.call == CallObject(t.ty) && IsType(t.ty) && t.ty.align > 0
    && (if t.onHeap then h.data != 0 && OutsideAll(w, h.data, t.ty.size)
        else t.ty.nothrowMove && a + HEADER <= h.data && h.data + t.ty.size <= a + BLOCK && h.data % t.ty.align == 0)
  }

  ghost predicate HeaderOk(w: World, a: nat)
    requires a in w.headers
  {
    var h := w.headers[a];
    match h.vtable
    case Some(t) => OwnsWell(w, a, t)
    case None => h == BLANK || (h.call == CallReferent && OutsideAll(w, h.data, 1))
  }

  predicate Owner(w: World, a: nat, p: nat) {
    a in w.headers && w.headers[a].vtable.Some? && w.headers[a].data == p
  }

  ghost predicate HeadersOk(w: World) {
    forall a :: a in w.headers ==> a > 0 && a % BLOCK == 0 && HeaderOk(w, a)
  }

  ghost predicate OneOwner(w: World) {
    forall a, b, p :: Owner(w, a, p) && Owner(w, b, p) ==> a == b
  }

  ghost predicate Claimed(w: World) {
    forall p :: p in w.live ==> exists a :: Owner(w, a, p)
  }

  ghost predicate HeapApart(w: World) {
    forall p, q :: p in w.live && q in w.live && p != q && w.live[p].onHeap && w.live[q].onHeap ==>
      Apart(p, w.live[p].ty.size, q, w.live[q].ty.size)
  }

  ghost predicate WellFormed(w: World) {
    HeadersOk(w) && OneOwner(w) && Claimed(w) && HeapApart(w)
  }

  lemma BlocksApart(a: nat, b: nat)
    requires a % BLOCK == 0 && b % BLOCK == 0 && a != b
    ensures a + BLOCK <= b || b + BLOCK <= a
  {
    assert a == 64 * (a / 64) && b == 64 * (b / 64);
  }

  ghost function ContentOf(w: World, a: nat): Content
    requires HeadersOk(w) && a in w.headers
  {
    match w.headers[a].call
    case NoCall => Empty
    case CallReferent => Unowned(w.headers[a].data)
    case CallObject(ty) => assert HeaderOk(w, a); Owned(ty, w.live[w.headers[a].data].val)
  }

  /** No two live objects overlap, wherever they are. */
  lemma NoOverlap(w: World, p: nat, q: nat)
    requires WellFormed(w) && p in w.live && q in w.live && p != q
    ensures Apart(p, w.live[p].ty.size, q, w.live[q].ty.size)
  {
    var a :| Owner(w, a, p);
    var b :| Owner(w, b, q);
    if !w.live[p].onHeap || !w.live[q].onHeap {
      OwnersApart(w, a, b, p, q);
    }
  }

  lemma OwnersApart(w: World, a: nat, b: nat, p: nat, q: nat)
    requires HeadersOk(w) && Owner(w, a, p) && Owner(w, b, q) && a != b
    requires p in w.live && q in w.live && (!w.live[p].onHeap || !w.live[q].onHeap)
    ensures Apart(p, w.live[p].ty.size, q, w.live[q].ty.size)
  {
    assert HeaderOk(w, a) && HeaderOk(w, b);
    BlocksApart(a, b);
    if w.live[p].onHeap {
      assert Outside(b, p, w.live[p].ty.size);
    } else if w.live[q].onHeap {
      assert Outside(a, q, w.live[q].ty.size);
    }
  }

  // ----- swap

  /** Where `data` ends up when the wrapper at `from` hands it to the one at `to`. */
  function Carried(from: nat, to: nat, data: nat): nat {
    if IsInline(from, data) then data - from + to else data
  }

  /** The live objects after a swap: inline callables move to the same offset in the other block. */
  function SwappedLive(live: map<nat, Object>, a: nat, p: nat, b: nat, q: nat): map<nat, Object>
    requires IsInline(a, p) ==> p in live
    requires IsInline(b, q) ==> q in live
  {
    var leaving := (if IsInline(a, p) then {p} else {}) + (if IsInline(b, q) then {q} else {});
    var withA := if IsInline(a, p) then (live - leaving)[Carried(a, b, p) := live[p]] else live - leaving;
    if IsInline(b, q) then withA[Carried(b, a, q) := live[q]] else withA
  }

  /** What swapping two distinct wrappers does: headers change hands, inline callables move
      across, everything else stays. */
  function Exchanged(w: World, a: nat, b: nat): World
    requires a in w.headers && b in w.headers && a != b
    requires IsInline(a, w.headers[a].data) ==> w.headers[a].data in w.live
    requires IsInline(b, w.headers[b].data) ==> w.headers[b].data in w.live
  {
    var ha, hb := w.headers[a], w.headers[b];
    World(SwappedLive(w.live, a, ha.data, b, hb.data),
          w.headers[a := hb.(data := Carried(b, a, hb.data))][b := ha.(data := Carried(a, b, ha.data))])
  }

  ghost function Swapped(w: World, a: nat, b: nat): World
    requires HeadersOk(w) && a in w.headers && b in w.headers && a != b
  {
    assert HeaderOk(w, a) && HeaderOk(w, b);
    Exchanged(w, a, b)
  }

  /** Only an owned, placed callable passes the inline test. */
  ghost function InlineObject(w: World, a: nat): (o: Object)
    requires HeadersOk(w) && a in w.headers && IsInline(a, w.headers[a].data)
    ensures w.headers[a].vtable == Some(Table(o.ty, false)) && OwnsWell(w, a, Table(o.ty, false))
    ensures !o.onHeap && !o.moved && w.headers[a].data in w.live && o == w.live[w.headers[a].data]
  {
    assert HeaderOk(w, a);
    w.live[w.headers[a].data]
  }

  /** The wrapper at `d` after the swap holds well what the one at `c` had. */
  lemma SwapHandsOver(w: World, a: nat, b: nat, c: nat, d: nat)
    requires HeadersOk(w) && OneOwner(w) && a in w.headers && b in w.headers && a != b
    requires (c == a && d == b) || (c == b && d == a)
    ensures HeaderOk(Swapped(w, a, b), d)
  {
    var w' := Swapped(w, a, b);
    assert w'.headers.Keys == w.headers.Keys;
    BlocksApart(a, b);
    assert HeaderOk(w, a) && HeaderOk(w, b);
    var h := w.headers[c];
    if IsInline(c, h.data) {
      var o := InlineObject(w, c);
      RelocationIsAligned(c, d, h.data, o.ty);
    } else if h.vtable.Some? {
      assert Outside(a, h.data, h.vtable.value.ty.size) && Outside(b, h.data, h.vtable.value.ty.size);
    }
  }

  lemma SwapLeavesAlone(w: World, a: nat, b: nat, c: nat)
    requires HeadersOk(w) && OneOwner(w) && a in w.headers && b in w.headers && a != b
    requires c in w.headers && c != a && c != b
    ensures HeaderOk(Swapped(w, a, b), c)
  {
    var w' := Swapped(w, a, b);
    assert w'.headers.Keys == w.headers.Keys;
    assert HeaderOk(w, c);
    SwapOwners(w, a, b, c);
    if w.headers[c].vtable.Some? {
      SwapCarriesObject(w, a, b, c);
      CarriedElsewhere(w, a, b, c);
    }
  }

  /** Who owned what the wrapper at `c` owns after the swap, and where it was. */
  function Former(a: nat, b: nat, c: nat): nat { if c == a then b else if c == b then a else c }

  lemma SwapOwners(w: World, a: nat, b: nat, c: nat)
    requires HeadersOk(w) && a in w.headers && b in w.headers && a != b && c in w.headers
    ensures var w' := Swapped(w, a, b); var d := Former(a, b, c);
            && w'.headers.Keys == w.headers.Keys && d in w.headers
            && w'.headers[c].vtable == w.headers[d].vtable && w'.headers[c].call == w.headers[d].call
            && w'.headers[c].data == Carried(d, c, w.headers[d].data)
  {
    if c != a && c != b {
      assert Carried(c, c, w.headers[c].data) == w.headers[c].data;
    }
  }

  lemma SwapOneOwner(w: World, a: nat, b: nat, c: nat, d: nat, p: nat)
    requires HeadersOk(w) && OneOwner(w) && a in w.headers && b in w.headers && a != b
    requires Owner(Swapped(w, a, b), c, p) && Owner(Swapped(w, a, b), d, p)
    ensures c == d
  {
    SwapOwners(w, a, b, c);
    SwapOwners(w, a, b, d);
    var c', d' := Former(a, b, c), Former(a, b, d);
    assert HeaderOk(w, c') && HeaderOk(w, d');
    assert Owner(w, c', w.headers[c'].data) && Owner(w, d', w.headers[d'].data);
    if c != d {
      BlocksApart(c, d);
    }
  }

  /** Every object alive after the swap was alive before, unchanged, and has an owner. */
  lemma SwapClaims(w: World, a: nat, b: nat, p: nat) returns (c: nat, q: nat)
    requires HeadersOk(w) && OneOwner(w) && Claimed(w) && a in w.headers && b in w.headers && a != b
    requires p in Swapped(w, a, b).live
    ensures Owner(Swapped(w, a, b), c, p)
    ensures q in w.live && Swapped(w, a, b).live[p] == w.live[q] && (w.live[q].onHeap ==> p == q)
  {
    var w' := Swapped(w, a, b);
    assert HeaderOk(w, a) && HeaderOk(w, b);
    var ha, hb := w.headers[a], w.headers[b];
    if IsInline(b, hb.data) && p == Carried(b, a, hb.data) {
      c, q := a, hb.data;
      SwapOwners(w, a, b, a);
    } else if IsInline(a, ha.data) && p == Carried(a, b, ha.data) {
      c, q := b, ha.data;
      SwapOwners(w, a, b, b);
    } else {
      q := p;
      var d :| Owner(w, d, p);
      c := Former(a, b, d);
      SwapOwners(w, a, b, c);
    }
  }

  lemma SwapHeapApart(w: World, a: nat, b: nat)
    requires WellFormed(w) && a in w.headers && b in w.headers && a != b
    ensures HeapApart(Swapped(w, a, b))
  {
    var w' := Swapped(w, a, b);
    forall p, q | p in w'.live && q in w'.live && p != q && w'.live[p].onHeap && w'.live[q].onHeap
      ensures Apart(p, w'.live[p].ty.size, q, w'.live[q].ty.size)
    {
      var c, p' := SwapClaims(w, a, b, p);
      var d, q' := SwapClaims(w, a, b, q);
    }
  }

  /** Swapping keeps ownership whole. */
  lemma SwapKeepsWellFormed(w: World, a: nat, b: nat)
    requires WellFormed(w) && a in w.headers && b in w.headers && a != b
    ensures WellFormed(Swapped(w, a, b))
  {
    var w' := Swapped(w, a, b);
    assert w'.headers.Keys == w.headers.Keys;
    forall c | c in w'.headers ensures c > 0 && c % BLOCK == 0 && HeaderOk(w', c) {
      if c == a || c == b {
        SwapHandsOver(w, a, b, Former(a, b, c), c);
      } else {
        SwapLeavesAlone(w, a, b, c);
      }
    }
    forall c, d, p | Owner(w', c, p) && Owner(w', d, p) ensures c == d {
      SwapOneOwner(w, a, b, c, d, p);
    }
    forall p | p in w'.live ensures exists c :: Owner(w', c, p) {
      var c, q := SwapClaims(w, a, b, p);
    }
    SwapHeapApart(w, a, b);
  }

  /** Swapping exchanges what the two wrappers would run, in every combination of inline, heap,
      unowned and empty, and changes nothing for any other. */
  lemma SwapExchanges(w: World, a: nat, b: nat)
    requires WellFormed(w) && a in w.headers && b in w.headers && a != b
    ensures var w' := Swapped(w, a, b);
            && WellFormed(w') && w'.headers.Keys == w.headers.Keys
            && ContentOf(w', a) == ContentOf(w, b) && ContentOf(w', b) == ContentOf(w, a)
            && (forall c :: c in w.headers && c != a && c != b ==> ContentOf(w', c) == ContentOf(w, c))
  {
    var w' := Swapped(w, a, b);
    SwapKeepsWellFormed(w, a, b);
    assert w'.headers.Keys == w.headers.Keys;
    forall c | c in w.headers ensures ContentOf(w', c) == ContentOf(w, Former(a, b, c)) {
      SwapContent(w, a, b, c);
    }
  }

  /** An owned callable is found, unchanged, at the address its new wrapper has for it. */
  lemma SwapCarriesObject(w: World, a: nat, b: nat, c: nat)
    requires HeadersOk(w) && OneOwner(w) && a in w.headers && b in w.headers && a != b
    requires c in w.headers && w.headers[c].vtable.Some?
    ensures w.headers[c].data in w.live
    ensures var p := Carried(c, Former(a, b, c), w.headers[c].data); var w' := Swapped(w, a, b);
            p in w'.live && w'.live[p] == w.live[w.headers[c].data]
  {
    var p := w.headers[c].data;
    assert HeaderOk(w, a) && HeaderOk(w, b) && HeaderOk(w, c);
    assert Owner(w, c, p);
    BlocksApart(a, b);
    if c != a && c != b {
      assert !Owner(w, a, p) && !Owner(w, b, p);
      CarriedElsewhere(w, a, b, c);
    }
  }

  /** A third wrapper's callable is not where a swapped one lands. */
  lemma CarriedElsewhere(w: World, a: nat, b: nat, c: nat)
    requires HeadersOk(w) && a in w.headers && b in w.headers && c in w.headers && c != a && c != b
    requires w.headers[c].vtable.Some?
    ensures var p := w.headers[c].data;
            && Carried(c, c, p) == p && !(a + HEADER <= p < a + BLOCK) && !(b + HEADER <= p < b + BLOCK)
  {
    assert HeaderOk(w, c);
    var p, t := w.headers[c].data, w.headers[c].vtable.value;
    BlocksApart(a, c);
    BlocksApart(b, c);
    if t.onHeap {
      assert Outside(a, p, t.ty.size) && Outside(b, p, t.ty.size);
    }
  }

  lemma SwapContent(w: World, a: nat, b: nat, c: nat)
    requires WellFormed(w) && a in w.headers && b in w.headers && a != b && c in w.headers
    requires HeadersOk(Swapped(w, a, b))
    ensures c in Swapped(w, a, b).headers && Former(a, b, c) in w.headers
    ensures ContentOf(Swapped(w, a, b), c) == ContentOf(w, Former(a, b, c))
  {
    var d := Former(a, b, c);
    SwapOwners(w, a, b, c);
    assert HeaderOk(w, d);
    var h := w.headers[d];
    if h.vtable.Some? {
      SwapCarriesObject(w, a, b, d);
    } else if h.call.CallReferent? {
      assert Outside(d, h.data, 1);
    }
  }

  lemma SwapTwiceHeaders(w: World, a: nat, b: nat)
    requires HeadersOk(w) && a in w.headers && b in w.headers && a != b
    requires HeadersOk(Swapped(w, a, b)) && Swapped(w, a, b).headers.Keys == w.headers.Keys
    ensures Swapped(Swapped(w, a, b), a, b).headers == w.headers
  {
    var w' := Swapped(w, a, b);
    var w'' := Swapped(w', a, b);
    BlocksApart(a, b);
    forall c | c in w.headers ensures c in w''.headers && w''.headers[c] == w.headers[c] {
      var d := Former(a, b, c);
      SwapOwners(w, a, b, d);
      SwapOwners(w', a, b, c);
    }
    SwapOwners(w', a, b, a);
    assert w''.headers.Keys == w.headers.Keys;
  }

  /** Swapping twice is the identity, on the whole memory. */
  lemma SwapTwice(w: World, a: nat, b: nat)
    requires WellFormed(w) && a in w.headers && b in w.headers && a != b
    ensures HeadersOk(Swapped(w, a, b)) && Swapped(w, a, b).headers.Keys == w.headers.Keys
    ensures Swapped(Swapped(w, a, b), a, b) == w
  {
    var w' := Swapped(w, a, b);
    SwapKeepsWellFormed(w, a, b);
    assert w'.headers.Keys == w.headers.Keys;
    SwapTwiceHeaders(w, a, b);
    SwapKeepsWellFormed(w', a, b);
    forall c | c in w.headers && w.headers[c].vtable.Some?
      ensures AgreeOn(w, Swapped(w', a, b), c)
    {
      SwapBackObject(w, w', a, b, c);
    }
    AgreeingWorlds(w, Swapped(w', a, b));
  }

  ghost predicate AgreeOn(w: World, v: World, c: nat)
    requires c in w.headers
  {
    var p := w.headers[c].data;
    p in w.live && p in v.live && v.live[p] == w.live[p]
  }

  /** Since every live object has an owner, worlds that agree on what is owned are equal. */
  lemma AgreeingWorlds(w: World, v: World)
    requires Claimed(w) && Claimed(v) && w.headers == v.headers
    requires forall c :: c in w.headers && w.headers[c].vtable.Some? ==> AgreeOn(w, v, c)
    ensures w == v
  {
    forall p | p in w.live ensures p in v.live && v.live[p] == w.live[p] {
      var c :| Owner(w, c, p);
      assert AgreeOn(w, v, c);
    }
    forall p | p in v.live ensures p in w.live {
      var c :| Owner(v, c, p);
      assert AgreeOn(w, v, c);
    }
  }

  lemma SwapBackObject(w: World, w': World, a: nat, b: nat, c: nat)
    requires WellFormed(w) && WellFormed(w') && a in w.headers && b in w.headers && a != b
    requires w' == Swapped(w, a, b) && w'.headers.Keys == w.headers.Keys
    requires c in w.headers && w.headers[c].vtable.Some?
    requires Swapped(w', a, b).headers == w.headers
    ensures AgreeOn(w, Swapped(w', a, b), c)
  {
    var d := Former(a, b, c);
    SwapCarriesObject(w, a, b, c);
    SwapOwners(w, a, b, d);
    SwapCarriesObject(w', a, b, d);
    SwapOwners(w', a, b, c);
  }
}

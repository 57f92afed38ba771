/** Where tcx::unique_function puts a callable: the 64-byte, 64-aligned wrapper holds a
    24-byte header and 40 bytes of storage, and `std::align` picks the place inside it. */
module Layout {
  import opened Collections

  const BLOCK: nat := 64
  const HEADER: nat := 24
  const STORAGE: nat := 40

  /** What the wrapper knows of a callable's type. */
  datatype Type = Type(tag: nat, size: nat, align: nat, nothrowMove: bool)

  ghost predicate IsType(ty: Type) {
    ty.size >= 1 && exists k: nat :: ty.align == Pow2(k)
  }

  /** The padding `std::align` adds in front of an object at `p`. */
  function Padding(p: nat, align: nat): nat
    requires align > 0
  {
    (align - p % align) % align
  }

  /** The inline address of a callable in the wrapper at `base`, when it fits. */
  function Place(base: nat, ty: Type): Option<nat>
    requires ty.align > 0
  {
    var pad := Padding(base + HEADER, ty.align);
    if ty.nothrowMove && pad + ty.size <= STORAGE then Some(base + HEADER + pad) else None
  }

  /** Offset `off` of the storage is aligned, in a wrapper at address zero. */
  predicate Aligned(off: nat, align: nat)
    requires align > 0
  {
    (HEADER + off) % align == 0
  }

  /** An offset into the storage at which the callable would be aligned and in bounds. */
  predicate Fits(off: nat, ty: Type)
    requires ty.align > 0
  {
    Aligned(off, ty.align) && off + ty.size <= STORAGE
  }

  /** Powers of two below the block size divide it; the others are multiples of it. */
  lemma {:induction false} AlignmentsSplit(k: nat)
    ensures Pow2(k) in {1, 2, 4, 8, 16, 32} || (Pow2(k) >= 64 && Pow2(k) % 64 == 0)
  {
    if k > 0 {
      AlignmentsSplit(k - 1);
      if Pow2(k - 1) >= 64 {
        assert Pow2(k) == 2 * Pow2(k - 1);
      }
    }
  }

  lemma MultipleOfMultiple(q: int, r: int, d: int)
    requires d > 0
    ensures (q * (r * d)) % d == 0
  {
    assert q * (r * d) == (q * r) * d + 0;
    DivisionUnique(q * (r * d), d, q * r, 0);
  }

  /** A multiple of a multiple of `d` is a multiple of `d`. */
  lemma DividesThrough(x: nat, m: nat, d: nat)
    requires m > 0 && d > 0 && m % d == 0 && x % m == 0
    ensures x % d == 0
  {
    var q, r := x / m, m / d;
    assert x == q * m;
    assert m == r * d;
    MultipleOfMultiple(q, r, d);
  }

  /** A remainder is not changed by adding a multiple. */
  lemma AddMultiple(q: int, x: nat, d: nat)
    requires d > 0
    ensures (q * d + x) % d == x % d
  {
    assert x == (x / d) * d + x % d;
    assert q * d + x == (q + x / d) * d + x % d;
    DivisionUnique(q * d + x, d, q + x / d, x % d);
  }

  /** A whole number of blocks is a whole number of smaller alignments. */
  lemma BlocksAsMultiple(base: nat, align: nat) returns (q: int)
    requires base % 64 == 0 && align in {1, 2, 4, 8, 16, 32}
    ensures base == q * align
  {
    q := if align == 1 then 64 * (base / 64) else if align == 2 then 32 * (base / 64)
         else if align == 4 then 16 * (base / 64) else if align == 8 then 8 * (base / 64)
         else if align == 16 then 4 * (base / 64) else 2 * (base / 64);
  }

  /** Moving by whole blocks does not change alignments that divide the block. */
  lemma WholeBlocks(base: nat, x: nat, align: nat)
    requires base % 64 == 0 && align in {1, 2, 4, 8, 16, 32}
    ensures (base + x) % align == x % align
  {
    var q := BlocksAsMultiple(base, align);
    AddMultiple(q, x, align);
  }

  /** A multiple of the block size inside a block is its start. */
  lemma OnlyTheStart(base: nat, p: nat)
    requires base % 64 == 0 && p % 64 == 0 && base <= p < base + 64
    ensures p == base
  {}

  lemma PaddingAligns(p: nat, align: nat)
    requires align > 0
    ensures (p + Padding(p, align)) % align == 0
  {
    assert p == (p / align) * align + p % align;
    if p % align == 0 {
      DivisionUnique(align, align, 1, 0);
    } else {
      DivisionUnique(align - p % align, align, 0, align - p % align);
      assert p + Padding(p, align) == (p / align + 1) * align + 0;
      DivisionUnique(p + Padding(p, align), align, p / align + 1, 0);
    }
  }

  /** In a 64-aligned wrapper, the padding of an alignment below 64 does not depend on where
      the wrapper is, and it is the least aligned offset. */
  lemma SmallPadding(base: nat, align: nat)
    requires base % 64 == 0 && align in {1, 2, 4, 8, 16, 32}
    ensures Padding(base + HEADER, align) == Padding(HEADER, align)
    ensures Aligned(Padding(HEADER, align), align)
    ensures (base + HEADER + Padding(HEADER, align)) % align == 0
    ensures forall off: nat :: Aligned(off, align) ==> off >= Padding(HEADER, align)
  {
    WholeBlocks(base, HEADER, align);
    PaddingAligns(HEADER, align);
    WholeBlocks(base, HEADER + Padding(HEADER, align), align);
    forall off: nat | Aligned(off, align) ensures off >= Padding(HEADER, align) {
      if align == 16 {
        assert Padding(HEADER, 16) == 8 && (24 + off) % 16 == 0;
      } else if align == 32 {
        assert Padding(HEADER, 32) == 8 && (24 + off) % 32 == 0;
      } else {
        assert Padding(HEADER, align) == 0;
      }
    }
  }

  lemma WidePadding(p: nat, align: nat)
    requires align > 0 && align % 64 == 0
    ensures (p + Padding(p, align)) % 64 == 0
  {
    PaddingAligns(p, align);
    DividesThrough(p + Padding(p, align), align, 64);
  }

  /** From the header's end to the next multiple of the block size is the whole storage. */
  lemma NextMultipleIsFar(base: nat, pad: nat)
    requires base % 64 == 0 && (base + HEADER + pad) % 64 == 0
    ensures pad >= STORAGE
  {}

  /** An alignment of 64 or more leaves no room in the block. */
  lemma WideAlignment(base: nat, ty: Type)
    requires base % 64 == 0 && ty.size >= 1 && ty.align >= 64 && ty.align % 64 == 0
    ensures Place(base, ty) == None
    ensures forall off: nat :: !Fits(off, ty)
  {
    WidePadding(base + HEADER, ty.align);
    NextMultipleIsFar(base, Padding(base + HEADER, ty.align));
    forall off: nat ensures !Fits(off, ty) {
      WideFitsNowhere(off, ty);
    }
  }

  lemma WideFitsNowhere(off: nat, ty: Type)
    requires ty.size >= 1 && ty.align >= 64 && ty.align % 64 == 0
    ensures !Fits(off, ty)
  {
    if Aligned(off, ty.align) {
      DividesThrough(HEADER + off, ty.align, 64);
      NextMultipleIsFar(0, off);
    }
  }

  /** The choice between inline and heap, for every type: inline exactly when the callable moves
      without throwing and some offset fits; then at the least such offset, which is the same
      in every wrapper. */
  lemma PlaceIsLeast(base: nat, ty: Type)
    requires base % 64 == 0 && IsType(ty)
    ensures ty.align > 0
    ensures Place(base, ty).Some? <==> ty.nothrowMove && exists off: nat :: Fits(off, ty)
    ensures Place(base, ty).Some? ==>
              && var off := Place(base, ty).value - base - HEADER;
              && Fits(off, ty) && (forall off': nat :: Fits(off', ty) ==> off <= off')
              && (forall base': nat {:trigger Place(base', ty)} :: base' % 64 == 0 ==>
                    Place(base', ty) == Some(base' + HEADER + off) && (base' + HEADER + off) % ty.align == 0)
    ensures ty.align >= 64 ==> Place(base, ty) == None
  {
    var k: nat :| ty.align == Pow2(k);
    AlignmentsSplit(k);
    if ty.align < 64 {
      SmallPadding(base, ty.align);
      var off := Padding(HEADER, ty.align);
      if off + ty.size <= STORAGE {
        assert Fits(off, ty);
      }
      forall base': nat | base' % 64 == 0
        ensures Padding(base' + HEADER, ty.align) == off && (base' + HEADER + off) % ty.align == 0
      {
        SmallPadding(base', ty.align);
      }
    } else {
      WideAlignment(base, ty);
    }
  }

  /** The same offset in two blocks is aligned alike. */
  lemma SameOffset(base: nat, base': nat, off: nat, align: nat)
    requires base % 64 == 0 && base' % 64 == 0 && align in {1, 2, 4, 8, 16, 32}
    ensures (base' + off) % align == (base + off) % align
  {
    WholeBlocks(base, off, align);
    WholeBlocks(base', off, align);
  }

  /** What is aligned inside a block, behind its header, has an alignment below the block size. */
  lemma InlineIsNarrow(base: nat, p: nat, align: nat)
    requires base % 64 == 0 && base + HEADER <= p < base + BLOCK && align > 0 && p % align == 0
    requires align >= 64 ==> align % 64 == 0
    ensures align < 64
  {
    if align >= 64 {
      DividesThrough(p, align, 64);
      OnlyTheStart(base, p);
    }
  }

  /** There is room for the callable at `p`, in the 40 bytes behind the 24 of the header. */
  predicate RoomAt(base: nat, ty: Type, p: nat) {
    base + 24 <= p && p + ty.size <= base + 64 && ty.align > 0 && p % ty.align == 0
  }

  lemma RoomIffFits(base: nat, ty: Type, off: nat)
    requires base % 64 == 0 && IsType(ty) && ty.align > 0
    ensures RoomAt(base, ty, base + HEADER + off) <==> Fits(off, ty)
  {
    var k: nat :| ty.align == Pow2(k);
    AlignmentsSplit(k);
    if ty.align < 64 {
      WholeBlocks(base, HEADER + off, ty.align);
      assert base + (HEADER + off) == base + HEADER + off;
    } else {
      WideFitsNowhere(off, ty);
      if RoomAt(base, ty, base + HEADER + off) {
        InlineIsNarrow(base, base + HEADER + off, ty.align);
      }
    }
  }

  /** The choice in plain numbers: inline exactly when the callable moves without throwing and some
      aligned address in the storage leaves room for it, and then at the least such address. */
  lemma PlaceIsRoom(base: nat, ty: Type)
    requires base % 64 == 0 && IsType(ty)
    ensures ty.align > 0
    ensures Place(base, ty).Some? <==> ty.nothrowMove && exists p: nat :: RoomAt(base, ty, p)
    ensures Place(base, ty).Some? ==> RoomAt(base, ty, Place(base, ty).value)
    ensures Place(base, ty).Some? ==> forall p: nat :: RoomAt(base, ty, p) ==> Place(base, ty).value <= p
  {
    PlaceIsLeast(base, ty);
    forall p: nat | RoomAt(base, ty, p) ensures Fits(p - base - HEADER, ty) {
      RoomIffFits(base, ty, p - base - HEADER);
      assert base + HEADER + (p - base - HEADER) == p;
    }
    forall off: nat | Fits(off, ty) ensures RoomAt(base, ty, base + HEADER + off) {
      RoomIffFits(base, ty, off);
    }
  }

  /** An aligned, in-bounds address in one wrapper is so at the same offset in any other, and in
      the temporary block of a swap. */
  lemma RelocationIsAligned(base: nat, base': nat, p: nat, ty: Type)
    requires base % 64 == 0 && base' % 64 == 0 && IsType(ty)
    requires base + HEADER <= p && p + ty.size <= base + BLOCK && ty.align > 0 && p % ty.align == 0
    ensures var p' := p - base + base';
            p' % ty.align == 0 && base' + HEADER <= p' && p' + ty.size <= base' + BLOCK
  {
    var k: nat :| ty.align == Pow2(k);
    AlignmentsSplit(k);
    InlineIsNarrow(base, p, ty.align);
    SameOffset(base, base', p - base, ty.align);
    assert base + (p - base) == p && base' + (p - base) == p - base + base';
  }
}

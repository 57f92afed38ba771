/** tcx::utilities::clamp, for integer types of any width and signedness. The bounds are values
    of the result type; `std::clamp<I>` takes them converted to the argument's type, which for
    integers of the wrong kind wraps around. */
module Clamp {
  import opened Collections

  datatype Integer = Integer(bits: nat, signed: bool)

  predicate IsInteger(t: Integer) { t.bits >= 1 }

  function MinOf(t: Integer): int
    requires IsInteger(t)
  {
    if t.signed then -Pow2(t.bits - 1) else 0
  }

  function MaxOf(t: Integer): int
    requires IsInteger(t)
  {
    if t.signed then Pow2(t.bits - 1) - 1 else Pow2(t.bits) - 1
  }

  predicate Fits(v: int, t: Integer)
    requires IsInteger(t)
  {
    MinOf(t) <= v <= MaxOf(t)
  }

  lemma {:induction false} Pow2Grows(j: nat, k: nat)
    requires j < k
    ensures Pow2(k) >= 2 * Pow2(j) && Pow2(j) >= 1
    ensures Pow2(k) % Pow2(j) == 0
  {
    if j < k - 1 {
      Pow2Grows(j, k - 1);
      DoubleOfMultiple(Pow2(k - 1), Pow2(j));
    } else {
      DivisionUnique(Pow2(j), Pow2(j), 1, 0);
      DoubleOfMultiple(Pow2(j), Pow2(j));
    }
  }

  lemma DoubleOfMultiple(x: int, d: int)
    requires d > 0 && x % d == 0
    ensures (2 * x) % d == 0
  {
    var q := x / d;
    assert x == q * d;
    assert 2 * x == (2 * q) * d + 0;
    DivisionUnique(2 * x, d, 2 * q, 0);
  }

  lemma WholeTimes(j: nat, k: nat) returns (q: int)
    requires j <= k
    ensures Pow2(k) == q * Pow2(j)
  {
    if j == k {
      q := 1;
    } else {
      Pow2Grows(j, k);
      q := Pow2(k) / Pow2(j);
    }
  }

  /** The usual types. */
  lemma UsualRanges()
    ensures MinOf(Integer(8, true)) == -128 && MaxOf(Integer(8, true)) == 127
    ensures MinOf(Integer(8, false)) == 0 && MaxOf(Integer(8, false)) == 255
    ensures MinOf(Integer(32, true)) == -0x8000_0000 && MaxOf(Integer(32, true)) == 0x7FFF_FFFF
    ensures MinOf(Integer(32, false)) == 0 && MaxOf(Integer(32, false)) == 0xFFFF_FFFF
    ensures MinOf(Integer(64, true)) == -0x8000_0000_0000_0000 && MaxOf(Integer(64, true)) == 0x7FFF_FFFF_FFFF_FFFF
    ensures MinOf(Integer(64, false)) == 0 && MaxOf(Integer(64, false)) == 0xFFFF_FFFF_FFFF_FFFF
  {
    SmallPowers();
    LargePowers();
    Halves(8);
    Halves(32);
    Halves(64);
  }

  lemma Halves(k: nat)
    requires k > 0
    ensures Pow2(k) == 2 * Pow2(k - 1)
  {}

  lemma SmallPowers()
    ensures Pow2(4) == 16 && Pow2(8) == 256
  {
    Halves(1);
    Halves(2);
    Halves(3);
    Halves(4);
    DoubleWidth(4, 4);
  }

  lemma LargePowers()
    ensures Pow2(32) == 0x1_0000_0000 && Pow2(64) == 0x1_0000_0000_0000_0000
  {
    SmallPowers();
    DoubleWidth(8, 8);
    DoubleWidth(16, 16);
    DoubleWidth(32, 32);
  }

  lemma {:induction false} DoubleWidth(j: nat, k: nat)
    ensures Pow2(j + k) == Pow2(j) * Pow2(k)
  {
    if k > 0 {
      DoubleWidth(j, k - 1);
      assert Pow2(j + k) == 2 * Pow2(j + k - 1);
      assert Pow2(j) * (2 * Pow2(k - 1)) == 2 * (Pow2(j) * Pow2(k - 1));
    }
  }

  /** Conversion to `t`, modulo two to the width. */
  function Convert(v: int, t: Integer): int
    requires IsInteger(t)
  {
    var m := v % Pow2(t.bits);
    if t.signed && m >= Pow2(t.bits - 1) then m - Pow2(t.bits) else m
  }

  /** Conversion gives the value itself when it fits, and always something that fits. */
  lemma ConvertMeaning(v: int, t: Integer)
    requires IsInteger(t)
    ensures Fits(Convert(v, t), t)
    ensures Fits(v, t) ==> Convert(v, t) == v
  {
    var p := Pow2(t.bits);
    assert p == 2 * Pow2(t.bits - 1);
    if Fits(v, t) {
      if v >= 0 {
        DivisionUnique(v, p, 0, v);
      } else {
        DivisionUnique(v, p, -1, v + p);
      }
    }
  }

  /** Conversion of a value known up to a multiple of the modulus. */
  lemma ConvertShifted(v: int, q: int, t: Integer)
    requires IsInteger(t) && Fits(v - q * Pow2(t.bits), t)
    ensures Convert(v, t) == v - q * Pow2(t.bits)
  {
    var p, w := Pow2(t.bits), v - q * Pow2(t.bits);
    assert p == 2 * Pow2(t.bits - 1);
    if w >= 0 {
      DivisionUnique(v, p, q, w);
    } else {
      assert v == (q - 1) * p + (w + p);
      DivisionUnique(v, p, q - 1, w + p);
    }
  }

  /** `std::clamp`, which asks that `lo <= hi`. */
  function StdClamp(v: int, lo: int, hi: int): int { if v < lo then lo else if hi < v then hi else v }

  /** What it is for: the result is within the bounds, it is the argument itself when that is within
      them, and no value between the bounds is nearer to the argument. */
  lemma StdClampMeaning(v: int, lo: int, hi: int, w: int)
    requires lo <= w <= hi
    ensures lo <= StdClamp(v, lo, hi) <= hi
    ensures lo <= v <= hi ==> StdClamp(v, lo, hi) == v
    ensures Max(StdClamp(v, lo, hi) - v, v - StdClamp(v, lo, hi)) <= Max(w - v, v - w)
  {}

  /** The overload with bounds. */
  function ClampBetween(v: int, from: Integer, low: int, high: int, to: Integer): int
    requires IsInteger(from) && IsInteger(to)
  {
    Convert(StdClamp(v, Convert(low, from), Convert(high, from)), to)
  }

  /** The overload that clamps to the whole range of the result type. */
  function Clamp(v: int, from: Integer, to: Integer): int
    requires IsInteger(from) && IsInteger(to)
  {
    ClampBetween(v, from, MinOf(to), MaxOf(to), to)
  }

  /** The precondition of `std::clamp`, after the bounds were converted. */
  predicate BoundsInOrder(from: Integer, to: Integer)
    requires IsInteger(from) && IsInteger(to)
  {
    Convert(MinOf(to), from) <= Convert(MaxOf(to), from)
  }

  /** When that is: an unsigned result from an unsigned argument or a wider signed one; a signed
      result from a signed argument at least as wide, or from a narrower unsigned one. */
  predicate Compatible(from: Integer, to: Integer) {
    if to.signed then (if from.signed then to.bits <= from.bits else to.bits > from.bits)
    else (from.signed ==> to.bits < from.bits)
  }

  /** Powers of two compare as their exponents do, and a larger one is at least twice a smaller one. */
  predicate Compare(j: nat, k: nat) {
    && Pow2(j) >= 1 && Pow2(k) >= 1 && (j == k ==> Pow2(j) == Pow2(k))
    && (j < k ==> Pow2(k) >= 2 * Pow2(j)) && (k < j ==> Pow2(j) >= 2 * Pow2(k))
  }

  lemma Compares(j: nat, k: nat)
    ensures Compare(j, k)
  {
    if j < k { Pow2Grows(j, k); }
    if k < j { Pow2Grows(k, j); }
  }

  lemma CompareWidths(from: Integer, to: Integer)
    requires IsInteger(from) && IsInteger(to)
    ensures Compare(from.bits, to.bits) && Compare(from.bits - 1, to.bits)
    ensures Compare(from.bits, to.bits - 1) && Compare(from.bits - 1, to.bits - 1)
    ensures Pow2(from.bits) == 2 * Pow2(from.bits - 1) && Pow2(to.bits) == 2 * Pow2(to.bits - 1)
  {
    Compares(from.bits, to.bits);
    Compares(from.bits - 1, to.bits);
    Compares(from.bits, to.bits - 1);
    Compares(from.bits - 1, to.bits - 1);
  }

  /** The converted bounds, case by case. */
  lemma ConvertedBounds(from: Integer, to: Integer)
    requires IsInteger(from) && IsInteger(to)
    ensures Convert(MinOf(to), from) ==
              if Fits(MinOf(to), from) then MinOf(to)
              else if to.bits <= from.bits then Pow2(from.bits) - Pow2(to.bits - 1) else 0
    ensures Convert(MaxOf(to), from) ==
              if Fits(MaxOf(to), from) then MaxOf(to)
              else if from.signed then -1 else Pow2(from.bits) - 1
  {
    ConvertMeaning(MinOf(to), from);
    ConvertMeaning(MaxOf(to), from);
    if !Fits(MinOf(to), from) {
      MinWraps(from, to);
    }
    if !Fits(MaxOf(to), from) {
      MaxWraps(from, to);
    }
  }

  lemma MinWraps(from: Integer, to: Integer)
    requires IsInteger(from) && IsInteger(to) && !Fits(MinOf(to), from)
    ensures Convert(MinOf(to), from) == if to.bits <= from.bits then Pow2(from.bits) - Pow2(to.bits - 1) else 0
  {
    if to.bits <= from.bits {
      if to.bits - 1 < from.bits - 1 { Pow2Grows(to.bits - 1, from.bits - 1); }
      ConvertShifted(MinOf(to), -1, from);
    } else {
      var q := WholeTimes(from.bits, to.bits - 1);
      assert to.signed;
      MultipleWraps(-q, from);
      assert -q * Pow2(from.bits) == -Pow2(to.bits - 1);
    }
  }

  /** A multiple of the modulus converts to zero. */
  lemma MultipleWraps(q: int, t: Integer)
    requires IsInteger(t)
    ensures Convert(q * Pow2(t.bits), t) == 0
  {
    ConvertShifted(q * Pow2(t.bits), q, t);
  }

  lemma MaxWraps(from: Integer, to: Integer)
    requires IsInteger(from) && IsInteger(to) && !Fits(MaxOf(to), from)
    ensures Convert(MaxOf(to), from) == if from.signed then -1 else Pow2(from.bits) - 1
  {
    var p := Pow2(from.bits);
    var width: nat := if to.signed then to.bits - 1 else to.bits;
    CompareWidths(from, to);
    assert MaxOf(to) == Pow2(width) - 1 && from.bits <= width;
    var q := WholeTimes(from.bits, width);
    if from.signed {
      assert MaxOf(to) - q * p == -1;
      ConvertShifted(MaxOf(to), q, from);
    } else {
      assert MaxOf(to) - (q - 1) * p == p - 1;
      ConvertShifted(MaxOf(to), q - 1, from);
    }
  }

  /** Exactly when calling `clamp` is allowed at all, for every pair of types. */
  lemma InOrderIff(from: Integer, to: Integer)
    requires IsInteger(from) && IsInteger(to)
    ensures BoundsInOrder(from, to) <==> Compatible(from, to)
  {
    ConvertedBounds(from, to);
    CompareWidths(from, to);
  }

  /** Whenever it is allowed it is right: the nearest value of the result type, for every argument. */
  lemma ClampSaturates(v: int, from: Integer, to: Integer)
    requires IsInteger(from) && IsInteger(to) && Fits(v, from) && BoundsInOrder(from, to)
    ensures Clamp(v, from, to) == StdClamp(v, MinOf(to), MaxOf(to))
    ensures Fits(v, to) ==> Clamp(v, from, to) == v
    ensures v < MinOf(to) ==> Clamp(v, from, to) == MinOf(to)
    ensures v > MaxOf(to) ==> Clamp(v, from, to) == MaxOf(to)
  {
    InOrderIff(from, to);
    ConvertedBounds(from, to);
    CompareWidths(from, to);
    var w := StdClamp(v, Convert(MinOf(to), from), Convert(MaxOf(to), from));
    ConvertMeaning(w, to);
  }

  // ----- Bounds of one's own

  /** The overload with bounds may be called, and gives the nearest value between them, for every
      argument. */
  ghost predicate AlwaysRight(from: Integer, low: int, high: int, to: Integer)
    requires IsInteger(from) && IsInteger(to)
  {
    && Convert(low, from) <= Convert(high, from)
    && forall v :: Fits(v, from) ==> ClampBetween(v, from, low, high, to) == StdClamp(v, low, high)
  }

  /** Converted to the argument's type, each bound is the value of that type nearest to it. */
  predicate BoundsHold(from: Integer, low: int, high: int)
    requires IsInteger(from)
  {
    && low <= MaxOf(from) && MinOf(from) <= high
    && Convert(low, from) == Max(low, MinOf(from)) && Convert(high, from) == Min(high, MaxOf(from))
  }

  /** There is only one value to clamp to, and it survives the two conversions. */
  predicate OneValue(from: Integer, low: int, high: int, to: Integer)
    requires IsInteger(from) && IsInteger(to)
  {
    low == high && Convert(Convert(low, from), to) == low
  }

  /** Conversion changes a value by a multiple of the modulus. */
  lemma ConvertIsShift(v: int, t: Integer) returns (q: int)
    requires IsInteger(t)
    ensures Convert(v, t) == v - q * Pow2(t.bits)
  {
    var p := Pow2(t.bits);
    assert v == (v / p) * p + v % p;
    q := if t.signed && v % p >= Pow2(t.bits - 1) then v / p + 1 else v / p;
    assert (v / p + 1) * p == (v / p) * p + p;
  }

  /** Through a type at least as wide and back. */
  lemma ThereAndBack(v: int, from: Integer, to: Integer)
    requires IsInteger(from) && IsInteger(to) && to.bits <= from.bits && Fits(v, to)
    ensures Convert(Convert(v, from), to) == v
  {
    var q := ConvertIsShift(v, from);
    var r := WholeTimes(to.bits, from.bits);
    var n := UndoShift(Convert(v, from), v, q, r, Pow2(from.bits), Pow2(to.bits));
    ConvertShifted(Convert(v, from), n, to);
  }

  /** A multiple of a multiple is a multiple. */
  lemma UndoShift(w: int, v: int, q: int, r: int, p: int, d: int) returns (n: int)
    requires w == v - q * p && p == r * d
    ensures w - n * d == v
  {
    n := -(q * r);
    assert q * (r * d) == (q * r) * d;
    assert n * d == -((q * r) * d);
  }

  /** With the smallest and the largest argument, the two bounds come out converted twice. */
  lemma EndsTell(from: Integer, low: int, high: int, to: Integer)
    requires IsInteger(from) && IsInteger(to) && AlwaysRight(from, low, high, to)
    ensures Convert(Convert(low, from), to) == StdClamp(MinOf(from), low, high)
    ensures Convert(Convert(high, from), to) == StdClamp(MaxOf(from), low, high)
    ensures Fits(Convert(low, from), from) && Fits(Convert(high, from), from)
  {
    ConvertMeaning(low, from);
    ConvertMeaning(high, from);
    assert Fits(MinOf(from), from) && Fits(MaxOf(from), from);
    assert ClampBetween(MinOf(from), from, low, high, to) == StdClamp(MinOf(from), low, high);
    assert ClampBetween(MaxOf(from), from, low, high, to) == StdClamp(MaxOf(from), low, high);
  }

  lemma RightIfHeld(from: Integer, low: int, high: int, to: Integer)
    requires IsInteger(from) && IsInteger(to) && low <= high && Fits(low, to) && Fits(high, to)
    requires BoundsHold(from, low, high) || OneValue(from, low, high, to)
    ensures AlwaysRight(from, low, high, to)
  {
    forall v | Fits(v, from) ensures ClampBetween(v, from, low, high, to) == StdClamp(v, low, high) {
      if BoundsHold(from, low, high) {
        ConvertMeaning(StdClamp(v, low, high), to);
      }
    }
  }

  lemma HeldIfRightNarrow(from: Integer, low: int, high: int, to: Integer)
    requires IsInteger(from) && IsInteger(to) && low <= high && Fits(low, to) && Fits(high, to)
    requires to.bits <= from.bits && AlwaysRight(from, low, high, to)
    ensures BoundsHold(from, low, high) || OneValue(from, low, high, to)
  {
    EndsTell(from, low, high, to);
    ThereAndBack(low, from, to);
    ThereAndBack(high, from, to);
    ConvertMeaning(low, from);
    ConvertMeaning(high, from);
  }

  /** A value of the narrower argument's type converts to itself, or is negative and wraps to a
      value above all of that type. */
  lemma WidensOrWraps(w: int, from: Integer, to: Integer)
    requires IsInteger(from) && IsInteger(to) && from.bits < to.bits && Fits(w, from)
    ensures Convert(w, to) == if w < 0 && !to.signed then w + Pow2(to.bits) else w
    ensures w < 0 && !to.signed ==> Convert(w, to) > MaxOf(from)
  {
    CompareWidths(from, to);
    if w < 0 && !to.signed {
      ConvertShifted(w, -1, to);
    } else {
      ConvertMeaning(w, to);
    }
  }

  /** Two values of the wider type that wrap together are the same when one of them wraps back. */
  lemma WrapTogether(from: Integer, low: int, high: int, to: Integer)
    requires IsInteger(from) && IsInteger(to) && from.bits < to.bits && !to.signed
    requires low <= high <= MaxOf(to) && Convert(low, from) == Convert(high, from) < 0
    requires Convert(low, from) + Pow2(to.bits) == low && Fits(Convert(low, from), from)
    ensures low == high
  {
    var q := ConvertIsShift(low, from);
    var r := ConvertIsShift(high, from);
    CompareWidths(from, to);
    var p := Pow2(from.bits);
    assert high - low == (r - q) * p;
    ProductBounds(r - q, p);
  }

  lemma HeldIfRightWide(from: Integer, low: int, high: int, to: Integer)
    requires IsInteger(from) && IsInteger(to) && low <= high && Fits(low, to) && Fits(high, to)
    requires from.bits < to.bits && AlwaysRight(from, low, high, to)
    ensures BoundsHold(from, low, high) || OneValue(from, low, high, to)
  {
    var l, h := Convert(low, from), Convert(high, from);
    EndsTell(from, low, high, to);
    WidensOrWraps(l, from, to);
    WidensOrWraps(h, from, to);
    if !to.signed && l < 0 {
      assert low > MaxOf(from);
      assert Convert(l, to) == low == Convert(h, to);
      assert h < 0 && l == h;
      WrapTogether(from, low, high, to);
    }
  }

  /** Exactly when the overload with bounds is right for every argument, for every pair of types and
      all bounds of the result's type. */
  lemma ClampBetweenIff(from: Integer, low: int, high: int, to: Integer)
    requires IsInteger(from) && IsInteger(to) && low <= high && Fits(low, to) && Fits(high, to)
    ensures AlwaysRight(from, low, high, to) <==> BoundsHold(from, low, high) || OneValue(from, low, high, to)
  {
    if BoundsHold(from, low, high) || OneValue(from, low, high, to) {
      RightIfHeld(from, low, high, to);
    }
    if AlwaysRight(from, low, high, to) {
      if to.bits <= from.bits {
        HeldIfRightNarrow(from, low, high, to);
      } else {
        HeldIfRightWide(from, low, high, to);
      }
    }
  }

  /** In particular with bounds that the argument's type can hold. */
  lemma ClampBetweenSaturates(v: int, from: Integer, low: int, high: int, to: Integer)
    requires IsInteger(from) && IsInteger(to) && Fits(v, from) && low <= high
    requires Fits(low, to) && Fits(high, to) && Fits(low, from) && Fits(high, from)
    ensures ClampBetween(v, from, low, high, to) == StdClamp(v, low, high)
  {
    ConvertMeaning(low, from);
    ConvertMeaning(high, from);
    ClampBetweenIff(from, low, high, to);
  }
}

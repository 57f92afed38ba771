/** The split of a duration into the seconds and nanoseconds of a kernel timespec. A duration
    counts ticks of `num / den` seconds; `duration_cast` truncates toward zero. */
module Sleep {
  import opened Collections

  const NANOS: int := 1_000_000_000

  /** C++ integer division. */
  function Truncate(x: int, d: int): int
    requires d > 0
  {
    if x >= 0 then x / d else -(-x / d)
  }

  datatype Timespec = Timespec(secs: int, nsecs: int)

  /** Seconds first; then the exact remainder, which is a whole number of 1/den seconds. */
  function Split(ticks: int, num: int, den: int): Timespec
    requires num > 0 && den > 0
  {
    var secs := Truncate(ticks * num, den);
    Timespec(secs, Truncate((ticks * num - secs * den) * NANOS, den))
  }

  /** What truncation is: the remainder is smaller than the divisor and leans away from zero. */
  lemma TruncateMeaning(x: int, d: int)
    requires d > 0
    ensures var r := x - Truncate(x, d) * d;
            && (x >= 0 ==> 0 <= r < d && Truncate(x, d) >= 0)
            && (x <= 0 ==> -d < r <= 0 && Truncate(x, d) <= 0)
  {
    if x >= 0 {
      QuotientMeaning(x, d);
    } else {
      QuotientMeaning(-x, d);
      assert Truncate(x, d) * d == -((-x / d) * d);
    }
  }

  lemma QuotientMeaning(x: nat, d: int)
    requires d > 0
    ensures 0 <= x - (x / d) * d < d && x / d >= 0
  {
    assert x == (x / d) * d + x % d;
    if x / d < 0 {
      ProductBounds(x / d, d);
    }
  }

  lemma TruncateUnique(x: int, d: int, q: int)
    requires d > 0
    requires x >= 0 ==> 0 <= x - q * d < d
    requires x < 0 ==> -d < x - q * d <= 0
    ensures Truncate(x, d) == q
  {
    if x >= 0 {
      DivisionUnique(x, d, q, x - q * d);
    } else {
      assert -x == (-q) * d + -(x - q * d);
      DivisionUnique(-x, d, -q, -(x - q * d));
    }
  }

  lemma Distribute(a: int, b: int, d: int)
    ensures (a + b) * d == a * d + b * d
  {}

  lemma Reorder(a: int, n: int, d: int)
    ensures (a * n) * d == (a * d) * n
  {}

  lemma SignOfProduct(a: int, d: int)
    requires d > 0
    ensures (a >= 0 ==> a * d >= 0) && (a <= 0 ==> a * d <= 0)
  {
    ProductBounds(a, d);
  }

  /** Truncating and then truncating what remains, scaled, is truncating the scaled whole. */
  lemma TruncateInTwo(x: int, d: int)
    requires d > 0
    ensures var a := Truncate(x, d); a * NANOS + Truncate((x - a * d) * NANOS, d) == Truncate(x * NANOS, d)
  {
    var a := Truncate(x, d);
    var rest := x - a * d;
    var b := Truncate(rest * NANOS, d);
    TruncateMeaning(x, d);
    TruncateMeaning(rest * NANOS, d);
    Distribute(a * NANOS, b, d);
    Reorder(a, NANOS, d);
    TruncateUnique(x * NANOS, d, a * NANOS + b);
  }

  /** Nothing is lost by splitting: together the two fields are the nanoseconds that a direct
      truncation of the whole duration would give. */
  lemma SplitLosesNothing(ticks: int, num: int, den: int)
    requires num > 0 && den > 0
    ensures var t := Split(ticks, num, den);
            t.secs * 1_000_000_000 + t.nsecs == Truncate(ticks * num * 1_000_000_000, den)
  {
    TruncateInTwo(ticks * num, den);
  }

  /** A truncated quotient is smaller than `n` when what is divided is smaller than `n * d`. */
  lemma QuotientBound(y: int, d: int, n: int)
    requires d > 0 && n > 0 && -(n * d) < y < n * d
    ensures -n < Truncate(y, d) < n
  {
    var e := Truncate(y, d);
    TruncateMeaning(y, d);
    Distribute(e, -n, d);
    Distribute(e, n, d);
    ProductBounds(e - n, d);
    ProductBounds(e + n, d);
  }

  /** The nanoseconds are less than a second and lean the same way as the duration. */
  lemma NanosInRange(ticks: int, num: int, den: int)
    requires num > 0 && den > 0
    ensures var t := Split(ticks, num, den);
            && -1_000_000_000 < t.nsecs < 1_000_000_000
            && (ticks >= 0 ==> t.secs >= 0 && t.nsecs >= 0)
            && (ticks <= 0 ==> t.secs <= 0 && t.nsecs <= 0)
  {
    SignOfProduct(ticks, num);
    var x := ticks * num;
    var rest := x - Truncate(x, den) * den;
    TruncateMeaning(x, den);
    TruncateMeaning(rest * NANOS, den);
    QuotientBound(rest * NANOS, den, NANOS);
  }

  predicate IsTimespec(t: Timespec) { t.secs >= 0 && 0 <= t.nsecs < 1_000_000_000 }

  /** The kernel accepts the result if and only if the duration is not a whole nanosecond or more
      below zero. */
  lemma ValidIff(ticks: int, num: int, den: int)
    requires num > 0 && den > 0
    ensures IsTimespec(Split(ticks, num, den)) <==> ticks * num * 1_000_000_000 > -den
  {
    NanosInRange(ticks, num, den);
    SplitLosesNothing(ticks, num, den);
    var x := ticks * num * NANOS;
    TruncateMeaning(x, den);
    var t, q := Split(ticks, num, den), Truncate(x, den);
    if x > -den {
      if x < 0 { TruncateUnique(x, den, 0); }
    } else {
      assert q < 0 by {
        assert q >= 0 ==> q * den >= 0;
      }
    }
  }

  predicate NotLater(a: Timespec, b: Timespec) { a.secs < b.secs || (a.secs == b.secs && a.nsecs <= b.nsecs) }

  lemma TruncateMonotone(x: int, y: int, d: int)
    requires d > 0 && x <= y
    ensures Truncate(x, d) <= Truncate(y, d)
  {
    TruncateMeaning(x, d);
    TruncateMeaning(y, d);
    var e := Truncate(x, d) - Truncate(y, d);
    assert e * d == Truncate(x, d) * d - Truncate(y, d) * d;
    ProductBounds(e, d);
  }

  /** Longer durations give timespecs that are no earlier, in the order the kernel compares them. */
  lemma SplitMonotone(ticks: int, more: int, num: int, den: int)
    requires num > 0 && den > 0 && ticks <= more
    ensures NotLater(Split(ticks, num, den), Split(more, num, den))
  {
    var x, y := ticks * num, more * num;
    Distribute(more, -ticks, num);
    SignOfProduct(more - ticks, num);
    TruncateMonotone(x, y, den);
    if Truncate(x, den) == Truncate(y, den) {
      RestMonotone(x, y, den);
    }
  }

  /** What remains after the seconds is split alike. */
  lemma RestMonotone(x: int, y: int, den: int)
    requires den > 0 && x <= y && Truncate(x, den) == Truncate(y, den)
    ensures var a := Truncate(x, den); Truncate((x - a * den) * NANOS, den) <= Truncate((y - a * den) * NANOS, den)
  {
    var a := Truncate(x, den);
    TruncateMonotone((x - a * den) * NANOS, (y - a * den) * NANOS, den);
  }
}

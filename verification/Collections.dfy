/** Sums and gathered bags over sequences, with the one-element-update laws that the state
    machines of this project are proved with, and some arithmetic. */
module Collections {

  datatype Option<+T> = None | Some(value: T)

  function Max(a: int, b: int): int { if a < b then b else a }

  function Min(a: int, b: int): int { if a < b then a else b }

  function Bit(b: bool): int { if b then 1 else 0 }

  function Inserted<T>(s: seq<T>, i: nat, x: T): seq<T>
    requires i <= |s|
  {
    s[..i] + [x] + s[i..]
  }

  function Erased<T>(s: seq<T>, i: nat): seq<T>
    requires i < |s|
  {
    s[..i] + s[i + 1..]
  }

  function Sum<T>(s: seq<T>, weight: T -> int): int {
    if s == [] then 0 else weight(s[0]) + Sum(s[1..], weight)
  }

  lemma {:induction false} SumUpdate<T>(s: seq<T>, i: nat, x: T, weight: T -> int)
    requires i < |s|
    ensures Sum(s[i := x], weight) == Sum(s, weight) - weight(s[i]) + weight(x)
  {
    if i == 0 {
      assert s[0 := x][1..] == s[1..];
    } else {
      assert s[i := x][1..] == s[1..][i - 1 := x];
      SumUpdate(s[1..], i - 1, x, weight);
    }
  }

  lemma {:induction false} SumAppend<T>(s: seq<T>, x: T, weight: T -> int)
    ensures Sum(s + [x], weight) == Sum(s, weight) + weight(x)
  {
    if s == [] {
      assert s + [x] == [x];
    } else {
      assert (s + [x])[1..] == s[1..] + [x];
      SumAppend(s[1..], x, weight);
    }
  }

  lemma {:induction false} SumConcat<T>(s: seq<T>, t: seq<T>, weight: T -> int)
    ensures Sum(s + t, weight) == Sum(s, weight) + Sum(t, weight)
  {
    if s == [] {
      assert s + t == t;
    } else {
      assert (s + t)[1..] == s[1..] + t;
      SumConcat(s[1..], t, weight);
    }
  }

  lemma {:induction false} SumErase<T>(s: seq<T>, i: nat, weight: T -> int)
    requires i < |s|
    ensures Sum(Erased(s, i), weight) == Sum(s, weight) - weight(s[i])
  {
    if i == 0 {
      assert Erased(s, 0) == s[1..];
    } else {
      assert Erased(s, i)[1..] == Erased(s[1..], i - 1);
      SumErase(s[1..], i - 1, weight);
    }
  }

  /** A sum of non-negative weights is at least each of them, and is zero only when all are. */
  lemma {:induction false} SumNonNegative<T>(s: seq<T>, weight: T -> int)
    requires forall i :: 0 <= i < |s| ==> weight(s[i]) >= 0
    ensures Sum(s, weight) >= 0
    ensures forall i :: 0 <= i < |s| ==> weight(s[i]) <= Sum(s, weight)
    ensures Sum(s, weight) == 0 <==> forall i :: 0 <= i < |s| ==> weight(s[i]) == 0
  {
    if s != [] {
      assert forall i :: 0 <= i < |s[1..]| ==> s[1..][i] == s[i + 1];
      SumNonNegative(s[1..], weight);
      forall i | 0 <= i < |s| ensures weight(s[i]) <= Sum(s, weight) {
        if i > 0 { assert s[i] == s[1..][i - 1]; }
      }
    }
  }

  /** A positive sum has a positive term. */
  lemma {:induction false} PositiveTerm<T>(s: seq<T>, weight: T -> int) returns (i: nat)
    requires Sum(s, weight) > 0
    ensures i < |s| && weight(s[i]) > 0
  {
    if weight(s[0]) > 0 {
      i := 0;
    } else {
      var j := PositiveTerm(s[1..], weight);
      i := j + 1;
    }
  }

  /** All the bags of a sequence's elements in one. */
  ghost function Gather<T, U>(s: seq<T>, bag: T -> multiset<U>): multiset<U> {
    if s == [] then multiset{} else bag(s[0]) + Gather(s[1..], bag)
  }

  lemma {:induction false} GatherUpdate<T, U>(s: seq<T>, i: nat, x: T, bag: T -> multiset<U>)
    requires i < |s|
    ensures Gather(s[i := x], bag) + bag(s[i]) == Gather(s, bag) + bag(x)
  {
    if i == 0 {
      assert s[0 := x][1..] == s[1..];
    } else {
      var rest := s[1..];
      assert s[i := x][1..] == rest[i - 1 := x];
      GatherUpdate(rest, i - 1, x, bag);
      assert Gather(s[i := x], bag) == bag(s[0]) + Gather(rest[i - 1 := x], bag);
      assert bag(s[0]) + Gather(rest[i - 1 := x], bag) + bag(s[i]) == bag(s[0]) + (Gather(rest, bag) + bag(x));
    }
  }

  lemma {:induction false} GatherAppend<T, U>(s: seq<T>, x: T, bag: T -> multiset<U>)
    ensures Gather(s + [x], bag) == Gather(s, bag) + bag(x)
  {
    if s == [] {
      assert s + [x] == [x];
    } else {
      assert (s + [x])[1..] == s[1..] + [x];
      GatherAppend(s[1..], x, bag);
    }
  }

  /** The size of what was gathered is the sum of the sizes. */
  lemma {:induction false} GatherSize<T, U>(s: seq<T>, bag: T -> multiset<U>, weight: T -> int)
    requires forall i :: 0 <= i < |s| ==> weight(s[i]) == |bag(s[i])|
    ensures |Gather(s, bag)| == Sum(s, weight)
  {
    if s != [] {
      assert forall i :: 0 <= i < |s[1..]| ==> s[1..][i] == s[i + 1];
      GatherSize(s[1..], bag, weight);
    }
  }

  lemma Associate<T>(a: seq<T>, b: seq<T>, c: seq<T>)
    ensures a + b + c == a + (b + c)
  {}

  function Pow2(k: nat): (p: int)
    ensures p >= 1
  {
    if k == 0 then 1 else 2 * Pow2(k - 1)
  }

  lemma {:induction false} ProductBounds(e: int, d: int)
    requires d > 0
    ensures e > 0 ==> e * d >= d
    ensures e < 0 ==> e * d <= -d
    decreases if e < 0 then -e else e
  {
    if e > 1 {
      ProductBounds(e - 1, d);
      assert e * d == (e - 1) * d + d;
    } else if e < -1 {
      ProductBounds(e + 1, d);
      assert e * d == (e + 1) * d - d;
    }
  }

  /** Quotient and remainder are unique. */
  lemma DivisionUnique(x: int, d: int, q: int, r: int)
    requires d > 0 && x == q * d + r && 0 <= r < d
    ensures x / d == q && x % d == r
  {
    var e := x / d - q;
    assert x == (x / d) * d + x % d;
    assert e * d == r - x % d by {
      assert e * d == (x / d) * d - q * d;
    }
    ProductBounds(e, d);
  }
}

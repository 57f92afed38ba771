/** The `fopen`-style mode string of tcx::async_open: a loop over its letters, and the open flags. */
module OpenMode {

  type Flags = bv32

  // Values of the Linux system call interface.
  const O_RDONLY: Flags := 0
  const O_WRONLY: Flags := 1
  const O_RDWR: Flags := 2
  const O_CREAT: Flags := 0x40
  const O_EXCL: Flags := 0x80
  const O_TRUNC: Flags := 0x200
  const O_APPEND: Flags := 0x400
  const O_CLOEXEC: Flags := 0x8_0000

  datatype Result = Flagged(flags: Flags) | InvalidArgument

  /** The characters that count: those before the first comma or the end of the string. */
  function Letters(mode: string): set<char> {
    if mode == [] || mode[0] == '\0' || mode[0] == ',' then {} else {mode[0]} + Letters(mode[1..])
  }

  /** What `fopen` would do for one of "r", "w", "a", with or without "+". */
  function Access(base: char, plus: bool): Flags {
    if base == 'r' then (if plus then O_RDWR else O_RDONLY)
    else if base == 'w' then (if plus then O_RDWR else O_WRONLY) | O_CREAT | O_TRUNC
    else (if plus then O_RDWR else O_WRONLY) | O_CREAT | O_APPEND
  }

  /** The result depends on which letters occur, and on nothing else. */
  function Meaning(letters: set<char>): Result {
    match ('r' in letters, 'w' in letters, 'a' in letters)
    case (true, false, false) => Flagged(Whole('r', letters))
    case (false, true, false) => Flagged(Whole('w', letters))
    case (false, false, true) => Flagged(Whole('a', letters))
    case _ => InvalidArgument
  }

  function Whole(base: char, letters: set<char>): Flags {
    Access(base, '+' in letters) | (if 'e' in letters then O_CLOEXEC else 0) | (if 'x' in letters then O_EXCL else 0)
  }

  /** Letter `c` counts: it is in the string, and neither a comma nor the end comes before it. */
  ghost predicate Counts(mode: string, c: char) {
    exists i :: 0 <= i < |mode| && mode[i] == c && forall k :: 0 <= k <= i ==> mode[k] != '\0' && mode[k] != ','
  }

  lemma {:induction false} LettersIff(mode: string, c: char)
    ensures c in Letters(mode) <==> Counts(mode, c)
  {
    if mode != [] && mode[0] != '\0' && mode[0] != ',' {
      var rest := mode[1..];
      LettersIff(rest, c);
      assert forall k :: 0 < k < |mode| ==> mode[k] == rest[k - 1];
      if Counts(rest, c) {
        var i :| 0 <= i < |rest| && rest[i] == c && forall k :: 0 <= k <= i ==> rest[k] != '\0' && rest[k] != ',';
        assert mode[i + 1] == c;
      }
      if Counts(mode, c) && mode[0] != c {
        var i :| 0 <= i < |mode| && mode[i] == c && forall k :: 0 <= k <= i ==> mode[k] != '\0' && mode[k] != ',';
        assert rest[i - 1] == c;
      }
      assert mode[0] == c ==> Counts(mode, c);
    }
  }

  lemma LettersCount(mode: string)
    ensures ('r' in Letters(mode) <==> Counts(mode, 'r')) && ('w' in Letters(mode) <==> Counts(mode, 'w'))
    ensures ('a' in Letters(mode) <==> Counts(mode, 'a')) && ('+' in Letters(mode) <==> Counts(mode, '+'))
    ensures ('e' in Letters(mode) <==> Counts(mode, 'e')) && ('x' in Letters(mode) <==> Counts(mode, 'x'))
  {
    LettersIff(mode, 'r');
    LettersIff(mode, 'w');
    LettersIff(mode, 'a');
    LettersIff(mode, '+');
    LettersIff(mode, 'e');
    LettersIff(mode, 'x');
  }

  /** Exactly one of the three holds. */
  predicate One(p: bool, q: bool, r: bool) { (p && !q && !r) || (!p && q && !r) || (!p && !q && r) }

  /** Each bit of the flags, in numbers, by the letters: read-write with '+', otherwise read-only for
      'r' and write-only for the others; create for 'w' and 'a', truncate for 'w', append for 'a';
      exclusive for 'x', close-on-exec for 'e'; and no other bit. */
  lemma MeaningBitByBit(letters: set<char>)
    ensures Meaning(letters).InvalidArgument? <==> !One('r' in letters, 'w' in letters, 'a' in letters)
    ensures Meaning(letters).Flagged? ==>
              var flags := Meaning(letters).flags;
              && flags & 3 == (if '+' in letters then 2 else if 'r' in letters then 0 else 1)
              && (flags & 0x40 != 0 <==> 'w' in letters || 'a' in letters)
              && (flags & 0x80 != 0 <==> 'x' in letters)
              && (flags & 0x200 != 0 <==> 'w' in letters)
              && (flags & 0x400 != 0 <==> 'a' in letters)
              && (flags & 0x8_0000 != 0 <==> 'e' in letters)
              && flags & 0xFFF7_F93C == 0
  {}

  function Times(flag: Flags, has: bool): Flags { if has then flag else 0 }

  function Count(has: bool): nat { if has then 1 else 0 }

  /** The loop over the letters. */
  method Scan(mode: string)
      returns (hasPlus: bool, hasRead: bool, hasWrite: bool, hasAppend: bool, hasCloexec: bool, hasExclusive: bool)
    ensures (hasPlus <==> '+' in Letters(mode)) && (hasRead <==> 'r' in Letters(mode))
    ensures (hasWrite <==> 'w' in Letters(mode)) && (hasAppend <==> 'a' in Letters(mode))
    ensures (hasCloexec <==> 'e' in Letters(mode)) && (hasExclusive <==> 'x' in Letters(mode))
  {
    hasPlus, hasRead, hasWrite, hasAppend, hasCloexec, hasExclusive := false, false, false, false, false, false;
    var it := 0;
    ghost var seen: set<char> := {};
    while it < |mode| && mode[it] != '\0' && mode[it] != ','
      invariant 0 <= it <= |mode|
      invariant Letters(mode) == seen + Letters(mode[it..])
      invariant (hasPlus <==> '+' in seen) && (hasRead <==> 'r' in seen) && (hasWrite <==> 'w' in seen)
      invariant (hasAppend <==> 'a' in seen) && (hasCloexec <==> 'e' in seen) && (hasExclusive <==> 'x' in seen)
      decreases |mode| - it
    {
      match mode[it] {
        case '+' => hasPlus := true;
        case 'r' => hasRead := true;
        case 'w' => hasWrite := true;
        case 'a' => hasAppend := true;
        case 'e' => hasCloexec := true;
        case 'x' => hasExclusive := true;
        case _ =>
      }
      seen := seen + {mode[it]};
      assert mode[it..][1..] == mode[it + 1..];
      it := it + 1;
    }
    assert Letters(mode[it..]) == {};
  }

  method ParseMode(mode: string) returns (r: Result)
    ensures r == Meaning(Letters(mode))
    ensures r.InvalidArgument? <==> !One(Counts(mode, 'r'), Counts(mode, 'w'), Counts(mode, 'a'))
    ensures r.Flagged? ==> r.flags & 3 == (if Counts(mode, '+') then 2 else if Counts(mode, 'r') then 0 else 1)
    ensures r.Flagged? ==> (r.flags & 0x40 != 0 <==> Counts(mode, 'w') || Counts(mode, 'a'))
    ensures r.Flagged? ==> (r.flags & 0x80 != 0 <==> Counts(mode, 'x'))
    ensures r.Flagged? ==> (r.flags & 0x200 != 0 <==> Counts(mode, 'w'))
    ensures r.Flagged? ==> (r.flags & 0x400 != 0 <==> Counts(mode, 'a'))
    ensures r.Flagged? ==> (r.flags & 0x8_0000 != 0 <==> Counts(mode, 'e'))
    ensures r.Flagged? ==> r.flags & 0xFFF7_F93C == 0
  {
    MeaningBitByBit(Letters(mode));
    LettersCount(mode);
    var hasPlus, hasRead, hasWrite, hasAppend, hasCloexec, hasExclusive := Scan(mode);
    if Count(hasRead) + Count(hasWrite) + Count(hasAppend) != 1 {
      return InvalidArgument;
    }
    var flags := Times(O_CLOEXEC, hasCloexec) | Times(O_EXCL, hasExclusive);
    if hasPlus {
      flags := flags | Times(O_RDWR | 0, hasRead) | Times(O_RDWR | O_CREAT | O_TRUNC, hasWrite)
               | Times(O_RDWR | O_CREAT | O_APPEND, hasAppend);
    } else {
      flags := flags | Times(O_RDONLY | 0, hasRead) | Times(O_WRONLY | O_CREAT | O_TRUNC, hasWrite)
               | Times(O_WRONLY | O_CREAT | O_APPEND, hasAppend);
    }
    return Flagged(flags);
  }

  /** A comma cuts the mode short, and neither order nor repetition of the letters matters. */
  lemma OnlyLettersMatter(a: string, b: string, rest: string)
    requires '\0' !in a && ',' !in a && '\0' !in b && ',' !in b
    requires forall c :: c in a <==> c in b
    ensures Meaning(Letters(a + "," + rest)) == Meaning(Letters(b))
  {
    SameLetters(a, b, "," + rest);
    assert a + "," + rest == a + ("," + rest);
  }

  lemma SameLetters(a: string, b: string, rest: string)
    requires '\0' !in a && ',' !in a && '\0' !in b && ',' !in b && rest != [] && rest[0] == ','
    requires forall c :: c in a <==> c in b
    ensures Letters(a + rest) == Letters(b)
  {
    LettersAreMembers(a, rest);
    LettersAreMembers(b, []);
    assert b + [] == b;
  }

  lemma {:induction false} LettersAreMembers(a: string, rest: string)
    requires '\0' !in a && ',' !in a && (rest == [] || rest[0] == ',')
    ensures forall c :: c in Letters(a + rest) <==> c in a
  {
    if a == [] {
      assert a + rest == rest;
    } else {
      assert (a + rest)[1..] == a[1..] + rest;
      LettersAreMembers(a[1..], rest);
    }
  }
}

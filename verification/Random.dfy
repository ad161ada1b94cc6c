/** Random: Park and Miller's generator by Schrage's method, and the additive-feedback generator it seeds. */
module Random {
  import opened Arithmetic

  const M: int := 0x7FFF_FFFF            // 2^31 - 1
  const TWO31: int := 0x8000_0000
  const TWO32: int := 0x1_0000_0000
  const NSHUFF: int := 50
  const MAX_TYPES: nat := 5

  predicate IsInt32(x: int) { -TWO31 <= x < TWO31 }
  predicate IsUInt32(x: int) { 0 <= x < TWO32 }

  // C division and remainder, which truncate toward zero.

  function CDiv(a: int, b: int): int
    requires b > 0
  {
    if a >= 0 then a / b else -((-a) / b)
  }

  function CMod(a: int, b: int): int
    requires b > 0
  {
    a - b * CDiv(a, b)
  }

  /** Conversion of an unsigned word to Int32. */
  function ToInt32(w: int): int { if w < TWO31 then w else w - TWO32 }

  /** goodRand */
  function GoodRand(x: int): (r: int) {
    var y := if x == 0 then 123459876 else x;
    var hi, lo := CDiv(y, 127773), CMod(y, 127773);
    var z := 16807 * lo - 2836 * hi;
    if z < 0 then z + M else z
  }

  /** Schrage's method is exact for every Int32, needs no wider intermediate, and gives 0 only for the two
      multiples of 2^31 - 1. */
  lemma GoodRandExact(x: int)
    requires IsInt32(x)
    ensures var y := if x == 0 then 123459876 else x;
      var hi, lo := CDiv(y, 127773), CMod(y, 127773);
      && IsInt32(16807 * lo) && IsInt32(2836 * hi) && IsInt32(16807 * lo - 2836 * hi)
      && GoodRand(x) == 16807 * y % M
      && 0 <= GoodRand(x) < M
      && (GoodRand(x) == 0 <==> x == M || x == -M)
  {
    var y := if x == 0 then 123459876 else x;
    var hi, lo := CDiv(y, 127773), CMod(y, 127773);
    assert y == 127773 * hi + lo && -127773 < lo < 127773;
    assert -16808 < hi < 16808;
    assert 16807 * y == M * hi + (16807 * lo - 2836 * hi);
    var r := GoodRand(x);
    DivUnique(16807 * y, M, if r == 16807 * lo - 2836 * hi then hi else hi - 1, r);
    if r == 0 { ZeroOnlyAtMultiples(y, hi, lo); }
  }

  lemma ZeroOnlyAtMultiples(y: int, hi: int, lo: int)
    requires y == 127773 * hi + lo && -127773 < lo < 127773 && -16808 < hi < 16808 && y != 0
    requires 16807 * lo == 2836 * hi || 16807 * lo - 2836 * hi == -M
    ensures y == M || y == -M
  {
    // 16807 and 2836 have no common factor: 2836 * 5790 - 16807 * 977 == 1
    if 16807 * lo == 2836 * hi {
      var q := 5790 * lo - 977 * hi;
      assert hi == 16807 * q;
    } else {
      NeverMinusM(hi, lo);
    }
  }

  lemma NeverMinusM(hi: int, lo: int)
    requires -127773 < lo < 127773 && -16808 < hi < 16808
    ensures 16807 * lo - 2836 * hi != -M
  {
    var q := 5790 * (lo + 127773) - 977 * (hi - 1);
    assert 16807 * lo - 2836 * hi == -M ==> hi - 1 == 16807 * q;
  }

  // ----- the words that seeding writes -----

  function SeedWord(x: int, i: nat): int {
    if i == 0 then x else GoodRand(ToInt32(SeedWord(x, i - 1)))
  }

  /** x times 16807, i times over. */
  function Geometric(x: int, i: nat): int {
    if i == 0 then x else 16807 * Geometric(x, i - 1)
  }

  /** From a seed between 1 and 2^31 - 2, word i is seed * 16807^i modulo 2^31 - 1, and never 0. */
  lemma {:induction false} SeedWordIsPower(x: int, i: nat)
    requires 1 <= x < M
    ensures 1 <= SeedWord(x, i) < M
    ensures SeedWord(x, i) == Geometric(x, i) % M
  {
    if i > 0 {
      var w := SeedWord(x, i - 1);
      SeedWordIsPower(x, i - 1);
      GoodRandExact(w);
      assert ToInt32(w) == w && SeedWord(x, i) == GoodRand(w);
      hide GoodRand, SeedWord;
      TimesMod(Geometric(x, i - 1));
    }
  }

  /** What any 32-bit seed leads to. As a signed number y it is a power sequence again, but 0 stands for 123459876,
      and a multiple of 2^31 - 1 gives 0 once and then starts over from 123459876. */
  lemma SeedWordOfAny(x: int, i: nat)
    requires IsUInt32(x) && i > 0
    ensures var y := if x < TWO31 then x else x - TWO32;
      SeedWord(x, i) ==
        if y == 0 then Geometric(123459876, i) % M
        else if y % M != 0 then Geometric(y, i) % M
        else if i == 1 then 0
        else Geometric(123459876, i - 1) % M
  {
    hide GoodRand, SeedWord, Geometric;
    var y, w := if x < TWO31 then x else x - TWO32, SeedWord(x, 1);
    FirstWord(x);
    SeedWordShift(x, i);
    if y == 0 {
      FromFirst(123459876, w, i);
    } else if y % M != 0 {
      FromFirst(y, w, i);
    } else if i > 1 {
      FirstWord(0);
      SeedWordShift(w, i - 1);
      FromFirst(123459876, SeedWord(w, 1), i - 1);
    } else {
      NoMoreWords(w);
    }
  }

  lemma FirstWord(x: int)
    requires IsUInt32(x)
    ensures var y := if x < TWO31 then x else x - TWO32;
      && SeedWord(x, 1) == 16807 * (if y == 0 then 123459876 else y) % M
      && 0 <= SeedWord(x, 1) < M
      && (SeedWord(x, 1) == 0 <==> y % M == 0 && y != 0)
  {
    var y := if x < TWO31 then x else x - TWO32;
    assert SeedWord(x, 0) == x && SeedWord(x, 1) == GoodRand(y);
    GoodRandExact(y);
    hide GoodRand, SeedWord, CDiv, CMod;
    assert -M - 1 <= y <= M;
  }

  lemma NoMoreWords(w: int)
    ensures SeedWord(w, 0) == w
  {
  }

  lemma {:induction false} SeedWordShift(x: int, i: nat)
    requires i > 0
    ensures SeedWord(x, i) == SeedWord(SeedWord(x, 1), i - 1)
  {
    hide GoodRand;
    if i > 1 { SeedWordShift(x, i - 1); }
  }

  lemma FromFirst(y: int, w: int, i: nat)
    requires w == 16807 * y % M && 1 <= w < M && i > 0
    ensures SeedWord(w, i - 1) == Geometric(y, i) % M
  {
    SeedWordIsPower(w, i - 1);
    hide GoodRand, SeedWord;
    GeometricMod(16807 * y, i - 1);
    GeometricShift(y, i);
  }

  lemma {:induction false} GeometricMod(x: int, i: nat)
    ensures Geometric(x % M, i) % M == Geometric(x, i) % M
  {
    if i > 0 {
      GeometricMod(x, i - 1);
      TimesMod(Geometric(x, i - 1));
      TimesMod(Geometric(x % M, i - 1));
    }
  }

  lemma {:induction false} GeometricShift(y: int, i: nat)
    requires i > 0
    ensures Geometric(16807 * y, i - 1) == Geometric(y, i)
  {
    if i > 1 { GeometricShift(y, i - 1); }
  }

  lemma TimesMod(p: int)
    ensures 16807 * p % M == 16807 * (p % M) % M
  {
    var q, w := p / M, p % M;
    assert 16807 * p == (16807 * q + 16807 * w / M) * M + 16807 * w % M;
    DivUnique(16807 * p, M, 16807 * q + 16807 * w / M, 16807 * w % M);
  }

  lemma {:induction false} SeedWordRange(x: int, i: nat)
    requires IsUInt32(x)
    ensures IsUInt32(SeedWord(x, i)) && (i > 0 ==> SeedWord(x, i) < M)
  {
    if i > 0 {
      SeedWordRange(x, i - 1);
      GoodRandExact(ToInt32(SeedWord(x, i - 1)));
    }
  }

  // ----- the recurrence that the circular buffer computes -----

  function Cyc(deg: nat, f: nat, k: nat): (p: nat)
    requires f < deg && k <= deg
    ensures p < deg
  {
    if f + k < deg then f + k else f + k - deg
  }

  /** Word t of the additive-feedback sequence; the first deg words are the buffer read from the front pointer. */
  function Word(init: seq<int>, sep: nat, t: nat): int
    requires 0 < sep < |init|
  {
    if t < |init| then init[Cyc(|init|, sep, t)]
    else (Word(init, sep, t - |init|) + Word(init, sep, t - sep)) % TWO32
  }

  /** The buffer, read cyclically from f, is words t, t + 1, ... of the sequence. */
  ghost predicate Window(w: seq<int>, init: seq<int>, sep: nat, f: nat, t: nat) {
    && 0 < sep < |init| == |w| && f < |w|
    && forall k :: 0 <= k < |w| ==> w[Cyc(|w|, f, k)] == Word(init, sep, t + k)
  }

  /** Adding the rear word into the front word and stepping on is one step of the recurrence. */
  lemma WindowSlides(w: seq<int>, init: seq<int>, sep: nat, f: nat, t: nat, r: nat)
    requires Window(w, init, sep, f, t) && r == Cyc(|w|, f, |w| - sep)
    ensures (w[f] + w[r]) % TWO32 == Word(init, sep, t + |w|)
    ensures Window(w[f := (w[f] + w[r]) % TWO32], init, sep, Cyc(|w|, f, 1), t + 1)
  {
    var deg := |w|;
    assert w[Cyc(deg, f, 0)] == Word(init, sep, t);
    assert w[Cyc(deg, f, deg - sep)] == Word(init, sep, t + (deg - sep));
    assert Word(init, sep, t + deg) == (Word(init, sep, t) + Word(init, sep, t + deg - sep)) % TWO32;
    hide Word;
    var w' := w[f := (w[f] + w[r]) % TWO32];
    forall k: nat | k < deg ensures w'[Cyc(deg, Cyc(deg, f, 1), k)] == Word(init, sep, t + 1 + k) {
      if k < deg - 1 {
        assert Cyc(deg, Cyc(deg, f, 1), k) == Cyc(deg, f, k + 1);
        assert w[Cyc(deg, f, k + 1)] == Word(init, sep, t + (k + 1));
      }
    }
  }

  /** The five polynomials: type, degree and separation. */
  predicate Kind(randType: nat, deg: nat, sep: nat) {
    || (randType == 0 && deg == 0 && sep == 0)
    || (randType == 1 && deg == 7 && sep == 3)
    || (randType == 2 && deg == 15 && sep == 1)
    || (randType == 3 && deg == 31 && sep == 3)
    || (randType == 4 && deg == 63 && sep == 1)
  }

  /** Stepping both pointers keeps them apart; the front one starts ahead, so one of them wraps at a time. */
  lemma CycStep(deg: nat, sep: nat, f: nat, r: nat)
    requires 0 < sep < deg && f < deg && r == Cyc(deg, f, deg - sep)
    ensures r < deg && Cyc(deg, f, 1) == if f + 1 >= deg then 0 else f + 1
    ensures Cyc(deg, Cyc(deg, f, 1), deg - sep)
         == if f + 1 >= deg then r + 1 else if r + 1 >= deg then 0 else r + 1
  {
  }

  lemma Halved(s: int)
    ensures 0 <= s % TWO32 / 2 < TWO31 && s % TWO32 / 2 % TWO31 == s % TWO32 / 2
  {
  }

  /** The words of this polynomial, with one in front, fit n bytes, and those of no larger polynomial do. */
  ghost predicate Largest(n: int, randType: nat, deg: nat) {
    4 * deg + 4 <= n && forall t: nat, d: nat, s: nat :: Kind(t, d, s) && 4 * d + 4 <= n ==> t <= randType && d <= deg
  }

  class Generator {
    var buffer: array<int>   // _pBuffer as words; _state is buffer + 1
    var fptr: nat            // indices into _state
    var rptr: nat
    var randType: nat
    var randDeg: nat
    var randSep: nat
    ghost var init: seq<int> // the words last seeded
    ghost var turn: nat      // calls of next since

    ghost predicate Shape()
      reads this, buffer
    {
      && Kind(randType, randDeg, randSep) && buffer.Length >= randDeg + 1 && buffer.Length >= 2
      && forall i :: 0 <= i < buffer.Length ==> IsUInt32(buffer[i])
    }

    ghost function State(): seq<int>
      requires buffer.Length >= randDeg + 1
      reads this, buffer
    {
      buffer[1..1 + randDeg]
    }

    /** The pointers stay randSep apart, and the front one is where the recurrence goes on. */
    ghost predicate Additive()
      reads this, buffer
    {
      && Shape() && 0 < randSep < randDeg
      && Window(State(), init, randSep, fptr, turn)
      && rptr == Cyc(randDeg, fptr, randDeg - randSep)
    }

    ghost predicate Valid()
      reads this, buffer
    {
      && Shape()
      && if randType == 0 then |init| == 1 && IsUInt32(init[0]) && buffer[1] == SeedWord(init[0], turn)
         else Additive()
    }

    /** next */
    method Next() returns (i: int)
      requires Valid()
      modifies this`fptr, this`rptr, this`turn, buffer
      ensures Valid() && turn == old(turn) + 1 && buffer[0] == old(buffer[0])
      ensures i == if randType == 0 then SeedWord(init[0], turn) else Word(init, randSep, old(turn) + randDeg) / 2
      ensures 0 <= i < TWO31
    {
      hide Window, Word, Kind;
      if randType == 0 {
        i := buffer[1];
        SeedWordRange(init[0], turn + 1);
        i := GoodRand(ToInt32(i)) % TWO31;
        buffer[1] := i;
        turn := turn + 1;
      } else {
        i := NextAdditive();
      }
    }

    /** The additive branch of next: only one pointer is tested for wrap-around. */
    method NextAdditive() returns (i: int)
      requires Additive()
      modifies this`fptr, this`rptr, this`turn, buffer
      ensures Additive() && turn == old(turn) + 1 && buffer[0] == old(buffer[0])
      ensures i == Word(init, randSep, old(turn) + randDeg) / 2 && 0 <= i < TWO31
    {
      hide Kind, Word, Window, IsUInt32;
      var f, r := fptr, rptr;
      WindowShape(State(), init, randSep, f, turn);
      WindowSlides(State(), init, randSep, f, turn, r);
      CycStep(randDeg, randSep, f, r);
      hide Cyc;
      i := AddInto(f, r);
      Halved(i);
      i := i / 2 % TWO31;
      f := f + 1;
      if f >= randDeg {
        f := 0;
        r := r + 1;
      } else {
        r := r + 1;
        if r >= randDeg { r := 0; }
      }
      fptr, rptr := f, r;
      turn := turn + 1;
    }

    /** *f += *r */
    method AddInto(f: nat, r: nat) returns (sum: int)
      requires Shape() && f < randDeg && r < randDeg
      modifies buffer
      ensures Shape() && buffer[0] == old(buffer[0])
      ensures sum == (old(State())[f] + old(State())[r]) % TWO32 && State() == old(State())[f := sum]
    {
      hide Kind;
      ghost var w := State();
      sum := (buffer[1 + f] + buffer[1 + r]) % TWO32;
      buffer[1 + f] := sum;
      assert State() == w[f := sum];
    }

    /** seed(x): writes the words, sets the pointers randSep apart, and discards the first outputs. */
    method Seed(x: int)
      requires Shape() && IsUInt32(x)
      modifies this`fptr, this`rptr, this`turn, this`init, buffer
      ensures Valid()
      ensures init == SeedWords(x, if randType == 0 then 1 else randDeg)
      ensures turn == if randType == 0 then NSHUFF else 10 * randDeg
      ensures buffer[0] == old(buffer[0])
    {
      hide Kind, Word, Window;
      KindShape(randType, randDeg, randSep);
      var lim: nat;
      buffer[1] := x;
      if randType == 0 {
        lim := NSHUFF;
        init := [x];
      } else {
        for i := 1 to randDeg
          invariant Shape() && buffer[0] == old(buffer[0])
          invariant buffer[1..1 + i] == SeedWords(x, i)
        {
          assert buffer[i] == SeedWords(x, i)[i - 1];
          SeedWordRange(x, i);
          buffer[1 + i] := GoodRand(ToInt32(buffer[i]));
          assert buffer[1..1 + i + 1] == buffer[1..1 + i] + [SeedWord(x, i)];
        }
        fptr := randSep;
        rptr := 0;
        lim := 10 * randDeg;
        init := State();
        WindowStarts(init, randSep);
      }
      turn := 0;
      assert init == SeedWords(x, if randType == 0 then 1 else randDeg);
      for i := 0 to lim
        invariant Valid() && turn == i && buffer[0] == old(buffer[0])
        invariant init == SeedWords(x, if randType == 0 then 1 else randDeg)
      {
        var _ := Next();
      }
    }

    /** The branches of initState on the size of the buffer. */
    method ChooseKind(n: int)
      requires n >= 8
      modifies this`randType, this`randDeg, this`randSep
      ensures Kind(randType, randDeg, randSep) && randType == TypeFor(n) < MAX_TYPES && 4 * randDeg + 4 <= n
      ensures Largest(n, randType, randDeg)
    {
      if n < 32 {
        randType, randDeg, randSep := 0, 0, 0;
      } else if n < 64 {
        randType, randDeg, randSep := 1, 7, 3;
      } else if n < 128 {
        randType, randDeg, randSep := 2, 15, 1;
      } else if n < 256 {
        randType, randDeg, randSep := 3, 31, 3;
      } else {
        randType, randDeg, randSep := 4, 63, 1;
      }
    }

    /** initState on a buffer of n bytes: the largest polynomial that fits is chosen, and the word before the
        state tells its type and the rear pointer. */
    method InitState(s: int, n: int) returns (ok: bool)
      requires IsUInt32(s) && buffer.Length == n / 4
      requires forall i :: 0 <= i < buffer.Length ==> IsUInt32(buffer[i])
      modifies this, buffer
      ensures ok == (n >= 8)
      ensures buffer == old(buffer)
      ensures !ok ==> unchanged(this) && unchanged(buffer)
      ensures ok ==> Valid() && randType == TypeFor(n) && init == SeedWords(s, if randType == 0 then 1 else randDeg)
      ensures ok ==> Kind(randType, randDeg, randSep) && Largest(n, randType, randDeg)
      ensures ok ==> turn == if randType == 0 then NSHUFF else 10 * randDeg
      ensures ok ==> buffer[0] % MAX_TYPES == randType && (randType > 0 ==> buffer[0] / MAX_TYPES == rptr)
    {
      hide Window, Word, SeedWord;
      if n < 8 { return false; }
      ChooseKind(n);
      hide Kind, TypeFor, Largest;
      Seed(s);
      ghost var w := if randType > 0 then State() else [];
      buffer[0] := if randType == 0 then 0 else MAX_TYPES * rptr + randType;
      assert randType > 0 ==> State() == w;
      ok := true;
    }
  }

  /** The polynomial that a buffer of n bytes allows. */
  function TypeFor(n: int): nat {
    if n < 32 then 0 else if n < 64 then 1 else if n < 128 then 2 else if n < 256 then 3 else 4
  }

  function SeedWords(x: int, n: nat): (s: seq<int>)
    ensures |s| == n && forall i :: 0 <= i < n ==> s[i] == SeedWord(x, i)
  {
    seq(n, i requires 0 <= i => SeedWord(x, i))
  }

  lemma WindowStarts(w: seq<int>, sep: nat)
    requires 0 < sep < |w|
    ensures Window(w, w, sep, sep, 0) && Cyc(|w|, sep, |w| - sep) == 0
  {
  }

  lemma KindShape(randType: nat, deg: nat, sep: nat)
    requires Kind(randType, deg, sep)
    ensures if randType == 0 then deg == 0 else 0 < sep < deg
  {
  }

  lemma WindowShape(w: seq<int>, init: seq<int>, sep: nat, f: nat, t: nat)
    requires Window(w, init, sep, f, t)
    ensures 0 < sep < |init| == |w| && f < |w|
  {
  }
}

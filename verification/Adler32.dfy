/** Adler-32: section 2.2 of RFC 1950, and the deferred-modulo loop that computes it. */
module Adler32 {
  import opened Bits
  import opened Common

  const BASE: nat := 65521
  const NMAX: nat := 5552

  /** The two running sums of the RFC, each reduced modulo 65521 after every byte. */
  function Sum1(s: seq<byte>): (r: nat)
    ensures r < BASE
  {
    if s == [] then 1 else (Sum1(s[..|s| - 1]) + s[|s| - 1]) % BASE
  }

  function Sum2(s: seq<byte>): (r: nat)
    ensures r < BASE
  {
    if s == [] then 0 else (Sum2(s[..|s| - 1]) + Sum1(s)) % BASE
  }

  function Adler(s: seq<byte>): (r: nat)
    ensures r < 0x1_0000_0000
  {
    65536 * Sum2(s) + Sum1(s)
  }

  /** 32-bit unsigned addition. */
  function Add32(a: nat, b: nat): nat {
    (a + b) % 0x1_0000_0000
  }

  /** How large the second sum can get `n` bytes after both sums were last reduced. */
  function Bound2(n: nat): nat {
    BASE - 1 + n * (BASE - 1) + 255 * (n * (n + 1) / 2)
  }

  /** Both sums after `n` unreduced additions: right modulo 65521, and small enough. */
  ghost predicate Tracks(s: seq<byte>, n: nat, s1: nat, s2: nat) {
    && s1 % BASE == Sum1(s) && s2 % BASE == Sum2(s)
    && s1 <= BASE - 1 + 255 * n
    && s2 <= Bound2(n)
  }

  /** A run of NMAX bytes cannot overflow 32 bits; one more byte could. */
  lemma NMaxIsTight()
    ensures Bound2(NMAX) < 0x1_0000_0000 <= Bound2(NMAX + 1)
  {
  }

  // ----- the bound is reached -----

  /** Both sums after these bytes, without any reduction. */
  function Unreduced(s1: nat, s2: nat, s: seq<byte>): (nat, nat) {
    if s == [] then (s1, s2)
    else
      var (a, b) := Unreduced(s1, s2, s[..|s| - 1]);
      (a + s[|s| - 1], b + a + s[|s| - 1])
  }

  lemma {:induction false} UnreducedSums(s: seq<byte>)
    ensures Unreduced(1, 0, s).0 % BASE == Sum1(s) && Unreduced(1, 0, s).1 % BASE == Sum2(s)
  {
    if s != [] {
      UnreducedSums(s[..|s| - 1]);
      var (a, b) := Unreduced(1, 0, s[..|s| - 1]);
      ModAdd(a, s[|s| - 1]);
      ModAdd(b, a + s[|s| - 1]);
    }
  }

  lemma {:induction false} UnreducedConcat(s1: nat, s2: nat, a: seq<byte>, b: seq<byte>)
    ensures Unreduced(s1, s2, a + b) == Unreduced(Unreduced(s1, s2, a).0, Unreduced(s1, s2, a).1, b)
  {
    if b == [] {
      assert a + b == a;
    } else {
      assert (a + b)[..|a + b| - 1] == a + b[..|b| - 1];
      UnreducedConcat(s1, s2, a, b[..|b| - 1]);
    }
  }

  lemma {:induction false} UnreducedRun(s1: nat, s2: nat, x: byte, n: nat)
    ensures Unreduced(s1, s2, Repeated(x, n)) == (s1 + n * x, s2 + n * s1 + x * (n * (n + 1) / 2))
  {
    var s := Repeated(x, n);
    if n > 0 {
      assert s[..n - 1] == Repeated(x, n - 1);
      UnreducedRun(s1, s2, x, n - 1);
      Triangle(s1, x, n);
    }
  }

  lemma Triangle(s1: nat, x: nat, n: nat)
    requires n > 0
    ensures n * x == (n - 1) * x + x && n * s1 == (n - 1) * s1 + s1
    ensures x * (n * (n + 1) / 2) == x * ((n - 1) * n / 2) + n * x
  {
    assert n * (n + 1) == (n - 1) * n + 2 * n;
    assert n * (n + 1) / 2 == (n - 1) * n / 2 + n;
    assert x * ((n - 1) * n / 2 + n) == x * ((n - 1) * n / 2) + x * n;
  }

  /** From the largest reduced sums, n bytes of 255 reach the bound. */
  lemma BoundAttained(n: nat)
    ensures Unreduced(BASE - 1, BASE - 1, Repeated(255, n)) == (BASE - 1 + 255 * n, Bound2(n))
  {
    UnreducedRun(BASE - 1, BASE - 1, 255, n);
  }

  /** Were runs one byte longer, there would be a first run that ends with the largest sums, and a second one that
      overflows 32 bits. */
  lemma LongerRunsOverflow() returns (run: seq<byte>)
    ensures |run| == NMAX + 1 && Sum1(run) == Sum2(run) == BASE - 1
    ensures Unreduced(Sum1(run), Sum2(run), Repeated(255, NMAX + 1)).1 >= 0x1_0000_0000
  {
    hide Unreduced, Sum1, Sum2, Bound2;
    var a: seq<byte>, b: seq<byte> := Repeated(0, 1624), Repeated(255, 256);
    var c: seq<byte>, d: seq<byte> := Repeated(239, 1), Repeated(0, 3672);
    run := a + b + c + d;
    UnreducedConcat(1, 0, a + b + c, d);
    UnreducedConcat(1, 0, a + b, c);
    UnreducedConcat(1, 0, a, b);
    UnreducedRun(1, 0, 0, 1624);
    UnreducedRun(1, 1624, 255, 256);
    UnreducedRun(65281, 8390360, 239, 1);
    UnreducedRun(65520, 8455880, 0, 3672);
    UnreducedSums(run);
    BoundAttained(NMAX + 1);
    NMaxIsTight();
  }

  lemma Bound2Step(n: nat)
    ensures Bound2(n + 1) == Bound2(n) + BASE - 1 + 255 * (n + 1)
  {
    assert (n + 1) * (n + 2) == n * (n + 1) + 2 * (n + 1);
  }

  lemma {:induction false} Bound2Mono(n: nat, m: nat)
    requires n <= m
    ensures Bound2(n) <= Bound2(m)
  {
    if n < m {
      Bound2Mono(n, m - 1);
      Bound2Step(m - 1);
    }
  }

  lemma ModAdd(a: nat, b: nat)
    ensures (a + b) % BASE == (a % BASE + b) % BASE == (a % BASE + b % BASE) % BASE
  {
  }

  lemma RunFits(n: nat)
    requires n <= NMAX
    ensures BASE - 1 + 255 * n < 0x1_0000_0000 && Bound2(n) < 0x1_0000_0000
  {
    Bound2Mono(n, NMAX);
    NMaxIsTight();
  }

  lemma TracksStep(s: seq<byte>, n: nat, s1: nat, s2: nat, b: byte)
    requires Tracks(s, n, s1, s2)
    ensures Tracks(s + [b], n + 1, s1 + b, s2 + (s1 + b))
  {
    assert (s + [b])[..|s|] == s;
    assert Sum1(s + [b]) == (s1 + b) % BASE by { ModAdd(s1, b); }
    assert Sum2(s + [b]) == (Sum2(s) + Sum1(s + [b])) % BASE;
    ModAdd(s2, s1 + b);
    Bound2Step(n);
    hide Bound2, Sum1, Sum2;
  }

  lemma TracksFits(s: seq<byte>, n: nat, s1: nat, s2: nat)
    requires n <= NMAX && Tracks(s, n, s1, s2)
    ensures s1 < 0x1_0000_0000 && s2 < 0x1_0000_0000
  {
    RunFits(n);
    hide Bound2, Sum1, Sum2;
  }

  /** One unreduced byte: the 32-bit additions are exact. */
  method AddByte(s1: nat, s2: nat, b: byte, ghost s: seq<byte>, ghost n: nat) returns (r1: nat, r2: nat)
    requires n < NMAX && Tracks(s, n, s1, s2)
    ensures r1 == s1 + b && r2 == s2 + r1
    ensures Tracks(s + [b], n + 1, r1, r2)
  {
    hide Tracks;
    TracksStep(s, n, s1, s2, b);
    TracksFits(s + [b], n + 1, s1 + b, s2 + (s1 + b));
    r1 := Add32(s1, b);
    r2 := Add32(s2, r1);
  }

  /** The unreduced run at the heart of tinf_adler32: k bytes, sixteen at a time, then the rest. */
  method AddRun(data: array<byte>, from: nat, k: nat, s1: nat, s2: nat) returns (r1: nat, r2: nat)
    requires from + k <= data.Length && k <= NMAX && Tracks(data[..from], 0, s1, s2)
    ensures Tracks(data[..from + k], k, r1, r2)
  {
    hide Tracks;
    r1, r2 := s1, s2;
    var i, buf := k / 16, from;
    while i != 0
      invariant 0 <= i <= k / 16 && buf == from + 16 * (k / 16 - i)
      invariant Tracks(data[..buf], buf - from, r1, r2)
    {
      // the sixteen unrolled additions
      for j := 0 to 16
        invariant Tracks(data[..buf + j], buf - from + j, r1, r2)
      {
        assert data[..buf + j] + [data[buf + j]] == data[..buf + j + 1];
        r1, r2 := AddByte(r1, r2, data[buf + j], data[..buf + j], buf - from + j);
      }
      i := i - 1;
      buf := buf + 16;
    }
    i := k % 16;
    while i != 0
      invariant 0 <= i <= k % 16 && buf == from + k - i
      invariant Tracks(data[..buf], buf - from, r1, r2)
    {
      assert data[..buf] + [data[buf]] == data[..buf + 1];
      r1, r2 := AddByte(r1, r2, data[buf], data[..buf], buf - from);
      buf := buf + 1;
      i := i - 1;
    }
  }

  /** tinf_adler32 */
  method ComputeAdler(data: array<byte>, length: nat) returns (r: nat)
    requires length <= data.Length
    ensures r == Adler(data[..length])
  {
    hide Sum1, Sum2;
    EmptySums();
    var s1: nat, s2: nat := 1, 0;
    var buf, left := 0, length;
    while left > 0
      invariant 0 <= left && buf + left == length
      invariant s1 == Sum1(data[..buf]) && s2 == Sum2(data[..buf])
    {
      var k := if left < NMAX then left else NMAX;
      s1, s2 := AddRun(data, buf, k, s1, s2);
      s1 := s1 % BASE;
      s2 := s2 % BASE;
      buf := buf + k;
      left := left - k;
    }
    r := s2 * 65536 + s1;
  }

  lemma EmptySums()
    ensures Sum1([]) == 1 && Sum2([]) == 0
  {
  }
}

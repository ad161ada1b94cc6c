/** What canonical codes guarantee: unique decoding, and when no bit string is left undecodable. */
module HuffmanTheory {
  import opened Bits
  import opened Huffman

  /** The number that a string of bits spells, most significant bit first. */
  function MsbValue(b: seq<bit>): nat {
    if b == [] then 0 else 2 * MsbValue(b[..|b| - 1]) + b[|b| - 1]
  }

  lemma {:induction false} MsbValueFront(b: seq<bit>)
    requires b != []
    ensures MsbValue(b) == b[0] * Pow2(|b| - 1) + MsbValue(b[1..])
  {
    if |b| > 1 {
      var c := b[..|b| - 1];
      MsbValueFront(c);
      assert c[1..] == b[1..][..|b| - 2];
      assert b[1..] != [] && b[1..][|b| - 2] == b[|b| - 1];
      assert 2 * (b[0] * Pow2(|b| - 2)) == b[0] * (2 * Pow2(|b| - 2));
    }
  }

  lemma {:induction false} MsbValueOfBits(v: nat, n: nat)
    requires v < Pow2(n)
    ensures MsbValue(MsbBits(v, n)) == v
  {
    if n > 0 {
      var half := Pow2(n - 1);
      var b := if v < half then 0 else 1;
      MsbValueOfBits(v - b * half, n - 1);
      MsbValueFront(MsbBits(v, n));
      assert MsbBits(v, n)[1..] == MsbBits(v - b * half, n - 1);
    }
  }

  lemma {:induction false} MsbBitsOfValue(b: seq<bit>)
    ensures MsbValue(b) < Pow2(|b|)
    ensures MsbBits(MsbValue(b), |b|) == b
  {
    if b != [] {
      MsbValueFront(b);
      MsbBitsOfValue(b[1..]);
      assert b == [b[0]] + b[1..];
    }
  }

  lemma {:induction false} MsbValuePrefix(b: seq<bit>, n: nat)
    requires n <= |b|
    ensures MsbValue(b[..n]) * Pow2(|b| - n) <= MsbValue(b) < (MsbValue(b[..n]) + 1) * Pow2(|b| - n)
  {
    if n == |b| {
      assert b[..n] == b;
    } else {
      var c, v := b[..|b| - 1], MsbValue(b[..n]);
      MsbValuePrefix(c, n);
      assert c[..n] == b[..n];
      Doubled(v, MsbValue(c), Pow2(|b| - 1 - n), b[|b| - 1]);
    }
  }

  lemma Doubled(v: nat, w: nat, p: nat, b: bit)
    requires v * p <= w < (v + 1) * p
    ensures v * (2 * p) <= 2 * w + b < (v + 1) * (2 * p)
  {
    assert v * (2 * p) == 2 * (v * p) && (v + 1) * (2 * p) == 2 * ((v + 1) * p);
  }

  /** No two symbols can start the same stream: the code is prefix-free. */
  lemma PrefixFree(lens: seq<nat>, s: nat, t: nat, bits: seq<bit>)
    requires Kraft(lens) && HasCode(lens, s) && HasCode(lens, t)
    requires CodeBits(lens, s) <= bits && CodeBits(lens, t) <= bits
    ensures s == t
  {
    hide Kraft, KraftSum, MsbValue, MsbBits;
    var ls, lt := lens[s], lens[t];
    CodeValue(lens, s);
    CodeValue(lens, t);
    if ls == lt {
      assert CodeBits(lens, s) == bits[..ls] == CodeBits(lens, t);
      if s < t { PlaceInjective(lens, s, t); }
      if t < s { PlaceInjective(lens, t, s); }
    } else if ls < lt {
      ShorterCodeIsNoPrefix(lens, s, t);
      PrefixesNest(CodeBits(lens, s), CodeBits(lens, t), bits);
    } else {
      ShorterCodeIsNoPrefix(lens, t, s);
      PrefixesNest(CodeBits(lens, t), CodeBits(lens, s), bits);
    }
  }

  lemma CodeValue(lens: seq<nat>, s: nat)
    requires Kraft(lens) && HasCode(lens, s)
    ensures MsbValue(CodeBits(lens, s)) == Code(lens, s)
    ensures FirstCode(lens, lens[s]) <= Code(lens, s) < EndCode(lens, lens[s])
  {
    RankBound(lens, s);
    KraftFits(lens, lens[s]);
    MsbValueOfBits(Code(lens, s), lens[s]);
  }

  lemma PrefixesNest(a: seq<bit>, b: seq<bit>, bits: seq<bit>)
    requires a <= bits && b <= bits && |a| <= |b|
    ensures a <= b
  {
    assert a == bits[..|a|] == b[..|a|];
  }

  lemma ShorterCodeIsNoPrefix(lens: seq<nat>, s: nat, t: nat)
    requires Kraft(lens) && HasCode(lens, s) && HasCode(lens, t) && lens[s] < lens[t]
    ensures !(CodeBits(lens, s) <= CodeBits(lens, t))
  {
    hide Kraft, KraftSum, MsbValue, MsbBits, FirstCode, Count, Pow2;
    var b, n := CodeBits(lens, t), lens[s];
    CodeValue(lens, s);
    CodeValue(lens, t);
    MsbValuePrefix(b, n);
    FirstCodeGrows(lens, n, lens[t]);
    assert CodeBits(lens, s) <= b ==> b[..n] == CodeBits(lens, s);
    var p := Pow2(lens[t] - n);
    MulMono(Code(lens, s) + 1, EndCode(lens, n), p);
    assert MsbValue(b) >= (Code(lens, s) + 1) * p;
  }

  /** Some symbol's code starts these bits, so the symbol decoder stops on them. */
  ghost predicate Decodable(lens: seq<nat>, bits: seq<bit>) {
    exists s :: HasCode(lens, s) && CodeBits(lens, s) <= bits
  }

  lemma {:induction false} SymbolOfRank(lens: seq<nat>, l: nat, r: nat) returns (s: nat)
    requires r < Count(lens, l)
    ensures s < |lens| && lens[s] == l && Rank(lens, s) == r
  {
    var n := |lens| - 1;
    if r == Count(lens[..n], l) {
      s := n;
    } else {
      s := SymbolOfRank(lens[..n], l, r);
      assert lens[..n][..s] == lens[..s];
    }
  }

  lemma {:induction false} FindCode(lens: seq<nat>, bits: seq<bit>, l: nat)
    requires |bits| == MAX_BITS && 1 <= l <= MAX_BITS
    requires EndCode(lens, MAX_BITS) == Pow2(MAX_BITS)
    requires MsbValue(bits[..l - 1]) >= EndCode(lens, l - 1)
    ensures Decodable(lens, bits)
    decreases MAX_BITS - l
  {
    hide Pow2;
    var b := bits[..l];
    assert b[..l - 1] == bits[..l - 1];
    if MsbValue(b) < EndCode(lens, l) {
      assert MsbValue(b) >= 2 * EndCode(lens, l - 1) == FirstCode(lens, l);
      var s := SymbolOfRank(lens, l, MsbValue(b) - FirstCode(lens, l));
      MsbBitsOfValue(b);
      assert CodeBits(lens, s) == b;
    } else {
      MsbBitsOfValue(b);
      if l == MAX_BITS { assert false; }
      FindCode(lens, bits, l + 1);
    }
  }

  function Ones(n: nat): (b: seq<bit>)
    ensures |b| == n
  {
    if n == 0 then [] else Ones(n - 1) + [1]
  }

  lemma {:induction false} OnesPrefix(n: nat, m: nat)
    requires m <= n
    ensures Ones(n)[..m] == Ones(m)
  {
    if m < n {
      OnesPrefix(n - 1, m);
      assert Ones(n)[..m] == Ones(n - 1)[..m];
    }
  }

  lemma {:induction false} OnesValue(n: nat)
    ensures MsbValue(Ones(n)) == Pow2(n) - 1
  {
    if n > 0 {
      OnesValue(n - 1);
      assert Ones(n)[..n - 1] == Ones(n - 1);
    }
  }

  lemma OnesUndecodable(lens: seq<nat>)
    requires KraftSum(lens) < Pow2(MAX_BITS)
    ensures !Decodable(lens, Ones(MAX_BITS))
  {
    assert Kraft(lens);
    hide Kraft, MsbValue, MsbBits, Ones;
    forall s: nat | HasCode(lens, s) ensures !(CodeBits(lens, s) <= Ones(MAX_BITS)) {
      var l := lens[s];
      if CodeBits(lens, s) <= Ones(MAX_BITS) {
        OnesPrefix(MAX_BITS, l);
        OnesValue(l);
        assert CodeBits(lens, s) == Ones(MAX_BITS)[..l];
        CodeValue(lens, s);
        FullLength(lens, l);
      }
    }
  }

  /** If the codes of one length reach the all-ones code, the Kraft sum is full. */
  lemma FullLength(lens: seq<nat>, l: nat)
    requires l <= MAX_BITS && EndCode(lens, l) >= Pow2(l)
    ensures KraftSum(lens) >= Pow2(MAX_BITS)
  {
    KraftSumIsEndCode(lens);
    hide KraftSum;
    if l < MAX_BITS {
      FirstCodeGrows(lens, l, MAX_BITS);
      Pow2Adds(l, MAX_BITS - l);
      MulMono(Pow2(l), EndCode(lens, l), Pow2(MAX_BITS - l));
    }
  }

  /** Every 15-bit string starts with some code exactly when Kraft's inequality is an equality. */
  lemma CompleteIffKraftEquality(lens: seq<nat>)
    requires Kraft(lens)
    ensures (forall bits: seq<bit> :: |bits| == MAX_BITS ==> Decodable(lens, bits))
            <==> KraftSum(lens) == Pow2(MAX_BITS)
  {
    if KraftSum(lens) == Pow2(MAX_BITS) {
      KraftSumIsEndCode(lens);
      forall bits: seq<bit> | |bits| == MAX_BITS ensures Decodable(lens, bits) {
        FindCode(lens, bits, 1);
      }
    } else {
      OnesUndecodable(lens);
      assert |Ones(MAX_BITS)| == MAX_BITS;
    }
  }
}

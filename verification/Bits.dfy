/** Bytes, bits, and the two bit orders of section 3.1.1 of RFC 1951. */
module Bits {

  type byte = x: int | 0 <= x < 256
  type bit = x: int | 0 <= x < 2

  function Pow2(n: nat): (p: nat)
    ensures p > 0
  {
    if n == 0 then 1 else 2 * Pow2(n - 1)
  }

  /** The low `n` bits of `v`, least significant first: how plain numbers travel. */
  function LsbBits(v: nat, n: nat): (s: seq<bit>)
    ensures |s| == n
  {
    if n == 0 then [] else [v % 2] + LsbBits(v / 2, n - 1)
  }

  /** `v` as `n` bits, most significant first: how Huffman codes travel. */
  function MsbBits(v: nat, n: nat): (s: seq<bit>)
    ensures |s| == n
  {
    if n == 0 then [] else
      var half := Pow2(n - 1);
      if v < half then [0] + MsbBits(v, n - 1) else [1] + MsbBits(v - half, n - 1)
  }

  /** The bits of a byte string, each byte's least significant bit first. */
  function BytesBits(s: seq<byte>): (r: seq<bit>)
    ensures |r| == 8 * |s|
  {
    if s == [] then [] else LsbBits(s[0], 8) + BytesBits(s[1..])
  }

  lemma {:induction false} Pow2Adds(a: nat, b: nat)
    ensures Pow2(a + b) == Pow2(a) * Pow2(b)
  {
    if a > 0 {
      Pow2Adds(a - 1, b);
      assert Pow2(a + b) == 2 * (Pow2(a - 1) * Pow2(b)) == (2 * Pow2(a - 1)) * Pow2(b);
    }
  }

  lemma {:induction false} Pow2Mono(a: nat, b: nat)
    ensures a < b ==> 2 * Pow2(a) <= Pow2(b)
  {
    if a + 1 < b { Pow2Mono(a, b - 1); }
  }

  lemma {:induction false} LsbBitsInjective(v: nat, w: nat, n: nat)
    requires v < Pow2(n) && w < Pow2(n)
    requires LsbBits(v, n) == LsbBits(w, n)
    ensures v == w
  {
    if n > 0 {
      assert LsbBits(v, n)[0] == v % 2 && LsbBits(w, n)[0] == w % 2;
      assert LsbBits(v, n)[1..] == LsbBits(v / 2, n - 1);
      assert LsbBits(w, n)[1..] == LsbBits(w / 2, n - 1);
      LsbBitsInjective(v / 2, w / 2, n - 1);
    }
  }

  lemma {:induction false} LsbBitsJoin(lo: nat, hi: nat, a: nat, b: nat)
    requires lo < Pow2(a)
    ensures LsbBits(lo + Pow2(a) * hi, a + b) == LsbBits(lo, a) + LsbBits(hi, b)
  {
    if a > 0 {
      var t := Pow2(a - 1) * hi;
      assert Pow2(a) * hi == 2 * t by { assert 2 * Pow2(a - 1) * hi == 2 * (Pow2(a - 1) * hi); }
      assert (lo + 2 * t) % 2 == lo % 2 && (lo + 2 * t) / 2 == lo / 2 + t;
      LsbBitsJoin(lo / 2, hi, a - 1, b);
    } else {
      assert Pow2(0) * hi == hi;
    }
  }

  /** A 16-bit number sent least significant bit first is its two bytes, low byte first. */
  lemma LsbBits16(v: nat)
    requires v < 65536
    ensures LsbBits(v, 16) == BytesBits([v % 256, v / 256])
  {
    Pow2Of8();
    hide LsbBits, Pow2;
    var lo: byte, hi: byte := v % 256, v / 256;
    LsbBitsJoin(lo, hi, 8, 8);
    BytesBitsConcat([lo], [hi]);
    assert [lo] + [hi] == [lo, hi];
    assert v == lo + 256 * hi;
  }

  lemma Pow2Of8()
    ensures Pow2(8) == 256
  {
  }

  lemma {:induction false} BytesBitsConcat(a: seq<byte>, b: seq<byte>)
    ensures BytesBits(a + b) == BytesBits(a) + BytesBits(b)
  {
    hide LsbBits;
    if a == [] {
      assert a + b == b;
    } else {
      BytesBitsConcat(a[1..], b);
      assert (a + b)[1..] == a[1..] + b;
    }
  }

  /** Whole bytes can be read off the front of a byte-aligned bit stream. */
  lemma {:induction false} BytesBitsPrefix(s: seq<byte>, t: seq<byte>, rest: seq<bit>)
    requires BytesBits(s) == BytesBits(t) + rest
    ensures |t| <= |s| && s[..|t|] == t && rest == BytesBits(s[|t|..])
  {
    hide LsbBits, Pow2;
    if t == [] {
      assert BytesBits(t) + rest == rest;
    } else {
      assert |s| > 0;
      var u := BytesBits(s);
      assert u[..8] == LsbBits(s[0], 8) && u[8..] == BytesBits(s[1..]);
      assert u == LsbBits(t[0], 8) + (BytesBits(t[1..]) + rest);
      assert u[..8] == LsbBits(t[0], 8) && u[8..] == BytesBits(t[1..]) + rest;
      Pow2Of8();
      LsbBitsInjective(s[0], t[0], 8);
      BytesBitsPrefix(s[1..], t[1..], rest);
      assert s[1..][|t| - 1..] == s[|t|..];
      assert s[..|t|] == [s[0]] + s[1..][..|t| - 1];
    }
  }

  function LsbValue(bits: seq<bit>): (v: nat)
    ensures v < Pow2(|bits|)
  {
    if bits == [] then 0 else bits[0] + 2 * LsbValue(bits[1..])
  }

  /** Packs whole bytes of bits, each byte filled from its least significant bit. */
  function Pack(bits: seq<bit>): (s: seq<byte>)
    requires |bits| % 8 == 0
    ensures |s| == |bits| / 8
  {
    if bits == [] then [] else
      assert Pow2(8) == 256;
      [LsbValue(bits[..8])] + Pack(bits[8..])
  }

  lemma {:induction false} LsbBitsOfValue(bits: seq<bit>)
    ensures LsbBits(LsbValue(bits), |bits|) == bits
  {
    if bits != [] {
      LsbBitsOfValue(bits[1..]);
      assert LsbValue(bits) / 2 == LsbValue(bits[1..]);
      assert LsbBits(LsbValue(bits), |bits|) == [bits[0]] + bits[1..] == bits;
    }
  }

  /** Packing loses nothing. */
  lemma {:induction false} BytesBitsOfPack(bits: seq<bit>)
    requires |bits| % 8 == 0
    ensures BytesBits(Pack(bits)) == bits
  {
    if bits != [] {
      LsbBitsOfValue(bits[..8]);
      BytesBitsOfPack(bits[8..]);
      assert Pack(bits)[1..] == Pack(bits[8..]);
      assert bits == bits[..8] + bits[8..];
    }
  }
}

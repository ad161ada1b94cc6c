/** SHA-1 of a whole message, as sections 4 to 7 of FIPS 180-1 define it. */
module Sha1Spec {
  import opened Common

  type word = bv32
  type octet = bv8

  const BLOCK_SIZE: nat := 64
  const TWO32: nat := 0x1_0000_0000

  datatype Chain = Chain(a: word, b: word, c: word, d: word, e: word)

  const H0: Chain := Chain(0x67452301, 0xEFCDAB89, 0x98BADCFE, 0x10325476, 0xC3D2E1F0)

  // ----- sections 5 and 6: the logical functions and constants -----

  function Rotl1(x: word): word { (x << 1) | (x >> 31) }
  function Rotl5(x: word): word { (x << 5) | (x >> 27) }
  function Rotl30(x: word): word { (x << 30) | (x >> 2) }

  function Choose(b: word, c: word, d: word): word { (b & c) | (!b & d) }
  function Parity(b: word, c: word, d: word): word { b ^ c ^ d }
  function Majority(b: word, c: word, d: word): word { (b & c) | (b & d) | (c & d) }

  function F(t: nat, b: word, c: word, d: word): word {
    if t < 20 then Choose(b, c, d)
    else if t < 40 then Parity(b, c, d)
    else if t < 60 then Majority(b, c, d)
    else Parity(b, c, d)
  }

  function K(t: nat): word {
    if t < 20 then 0x5A827999
    else if t < 40 then 0x6ED9EBA1
    else if t < 60 then 0x8F1BBCDC
    else 0xCA62C1D6
  }

  // ----- section 7: the message digest -----

  function Blend(a: word, b: word, c: word, d: word): word { Rotl1(a ^ b ^ c ^ d) }

  /** The t-th word of the expanded message block. */
  function W(block: seq<word>, t: nat): word
    requires |block| == 16
  {
    if t < 16 then block[t]
    else Blend(W(block, t - 3), W(block, t - 8), W(block, t - 14), W(block, t - 16))
  }

  function Sum5(a: word, f: word, e: word, w: word, k: word): word { a + f + e + w + k }

  function Round(h: Chain, t: nat, w: word): Chain {
    Chain(Sum5(Rotl5(h.a), F(t, h.b, h.c, h.d), h.e, w, K(t)), h.a, Rotl30(h.b), h.c, h.d)
  }

  /** The chaining value after the first t rounds. */
  function Rounds(h: Chain, block: seq<word>, t: nat): Chain
    requires |block| == 16
  {
    if t == 0 then h else Round(Rounds(h, block, t - 1), t - 1, W(block, t - 1))
  }

  function AddChain(h: Chain, r: Chain): Chain {
    Chain(h.a + r.a, h.b + r.b, h.c + r.c, h.d + r.d, h.e + r.e)
  }

  function Compress(h: Chain, block: seq<word>): Chain
    requires |block| == 16
  {
    AddChain(h, Rounds(h, block, 80))
  }

  function Fold(h: Chain, words: seq<word>): Chain
    decreases |words|
  {
    if |words| < 16 then h else Fold(Compress(h, words[..16]), words[16..])
  }

  // ----- section 4: padding -----

  /** Four octets as a word, most significant first. */
  function Big(b0: octet, b1: octet, b2: octet, b3: octet): word {
    ((b0 as word) << 24) | ((b1 as word) << 16) | ((b2 as word) << 8) | (b3 as word)
  }

  function Words(s: seq<octet>): (r: seq<word>)
    ensures |r| == |s| / 4
  {
    if |s| < 4 then [] else [Big(s[0], s[1], s[2], s[3])] + Words(s[4..])
  }

  /** How many zero octets bring the message, with its 0x80, to 56 modulo 64. */
  function PadLength(n: nat): (k: nat)
    ensures (n + 1 + k) % 64 == 56 && k < 64
  {
    if n % 64 < 56 then 55 - n % 64 else 119 - n % 64
  }

  /** The length in bits as two words; FIPS 180-1 stops at 2^64 bits, beyond which this wraps. */
  function LengthWords(n: nat): seq<word> {
    [AsWord(8 * n / TWO32 % TWO32), AsWord(8 * n % TWO32)]
  }

  function AsWord(x: nat): word
    requires x < TWO32
  {
    x as word
  }

  function PaddedWords(m: seq<octet>): seq<word> {
    Words(m + [0x80] + Repeated(0, PadLength(|m|))) + LengthWords(|m|)
  }

  function WordOctets(w: word): seq<octet> {
    [((w >> 24) & 0xFF) as octet, ((w >> 16) & 0xFF) as octet, ((w >> 8) & 0xFF) as octet, (w & 0xFF) as octet]
  }

  function Sha1(m: seq<octet>): seq<octet> {
    var h := Fold(H0, PaddedWords(m));
    WordOctets(h.a) + WordOctets(h.b) + WordOctets(h.c) + WordOctets(h.d) + WordOctets(h.e)
  }

  // ----- block structure -----

  lemma {:induction false} FoldConcat(h: Chain, a: seq<word>, b: seq<word>)
    requires |a| % 16 == 0
    ensures Fold(h, a + b) == Fold(Fold(h, a), b)
    decreases |a|
  {
    hide Compress;
    if a == [] {
      assert a + b == b;
    } else {
      assert (a + b)[..16] == a[..16] && (a + b)[16..] == a[16..] + b;
      FoldConcat(Compress(h, a[..16]), a[16..], b);
    }
  }

  lemma {:induction false} WordsConcat(a: seq<octet>, b: seq<octet>)
    requires |a| % 4 == 0
    ensures Words(a + b) == Words(a) + Words(b)
  {
    hide Big;
    if a == [] {
      assert a + b == b;
    } else {
      assert (a + b)[4..] == a[4..] + b;
      WordsConcat(a[4..], b);
    }
  }

  lemma {:induction false} WordAt(s: seq<octet>, i: nat)
    requires 4 * i + 4 <= |s|
    ensures Words(s)[i] == Big(s[4 * i], s[4 * i + 1], s[4 * i + 2], s[4 * i + 3])
  {
    hide Big;
    if i > 0 { WordAt(s[4..], i - 1); }
  }
}

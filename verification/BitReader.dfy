/** The bit-level half of the inflater: TINF_DATA and the routines that advance it. */
module BitReader {
  import opened Arithmetic
  import opened Bits
  import opened Huffman

  /** One decoding step keeps "code read so far" and "code still to come" in balance. */
  lemma CodeStep(cur: int, end: nat, w: nat, b: nat, half: nat)
    requires w < 2 * half && b == (if w < half then 0 else 1)
    ensures (cur + end) * (2 * half) + w == (2 * cur + b + 2 * end) * half + (w - b * half)
  {
    assert (cur + end) * (2 * half) == (2 * cur + 2 * end) * half;
    assert (2 * cur + b + 2 * end) * half == (2 * cur + 2 * end) * half + b * half;
  }

  lemma MaskStep(mask: nat, w: nat)
    ensures mask * w == mask * 2 * (w / 2) + (if w % 2 == 1 then mask else 0)
  {
    assert w == 2 * (w / 2) + w % 2;
  }

  lemma NotYet(cur: int, end: nat, p: nat, w: nat)
    requires w < p && (cur + end) * p + w >= end * p
    ensures cur >= 0
  {
    assert (cur + end) * p == cur * p + end * p;
    MulSign(cur, p);
  }

  lemma CodeFits(lens: seq<nat>, s: nat)
    requires Kraft(lens) && HasCode(lens, s)
    ensures FirstCode(lens, lens[s]) <= Code(lens, s) < EndCode(lens, lens[s]) <= Pow2(lens[s])
    ensures EndCode(lens, 0) == 0
  {
    RankBound(lens, s);
    KraftFits(lens, lens[s]);
  }

  /** Reading one more bit of the code of `s`: the loop goes on exactly while bits are missing. */
  lemma SymbolStep(lens: seq<nat>, s: nat, len: nat, cur: nat, w: nat) returns (b: bit, w': nat)
    requires Kraft(lens) && HasCode(lens, s) && len < lens[s] && w < Pow2(lens[s] - len)
    requires (cur + EndCode(lens, len)) * Pow2(lens[s] - len) + w == Code(lens, s)
    ensures MsbBits(w, lens[s] - len) == [b] + MsbBits(w', lens[s] - len - 1)
    ensures w' < Pow2(lens[s] - len - 1)
    ensures var cur' := 2 * cur + b - BlCount(lens, len + 1);
            && (cur' + EndCode(lens, len + 1)) * Pow2(lens[s] - len - 1) + w' == Code(lens, s)
            && (cur' < 0 <==> len + 1 == lens[s])
            && (len + 1 == lens[s] ==> cur' == Rank(lens, s) - BlCount(lens, len + 1))
    ensures Offset(lens, len + 2) == Offset(lens, len + 1) + BlCount(lens, len + 1)
  {
    hide Kraft, KraftSum, Count;
    var L, half := lens[s], Pow2(lens[s] - len - 1);
    b := if w < half then 0 else 1;
    w' := w - b * half;
    assert Pow2(L - len) == 2 * half && MsbBits(w, L - len) == [b] + MsbBits(w', L - len - 1);
    assert FirstCode(lens, len + 1) == 2 * EndCode(lens, len);
    assert Offset(lens, len + 2) == Offset(lens, len + 1) + BlCount(lens, len + 1);
    hide Offset, FirstCode, MsbBits;
    CodeStep(cur, EndCode(lens, len), w, b, half);
    var cur' := 2 * cur + b - BlCount(lens, len + 1);
    assert cur' + EndCode(lens, len + 1) == 2 * cur + b + 2 * EndCode(lens, len);
    CodeFits(lens, s);
    if len + 1 < L {
      FirstCodeGrows(lens, len + 1, L);
      NotYet(cur', EndCode(lens, len + 1), half, w');
    } else {
      assert half == 1 && w' == 0;
    }
  }

  class Reader {
    const source: array<byte>
    var pos: nat
    var tag: nat
    var bitcount: nat

    constructor (source: array<byte>, from: nat)
      requires from <= source.Length
      ensures Valid() && this.source == source && pos == from && bitcount == 0
      ensures Remaining() == BytesBits(source[from..])
    {
      this.source := source;
      pos, tag, bitcount := from, 0, 0;
    }

    ghost predicate Valid()
      reads this
    {
      pos <= source.Length && bitcount < 8 && bitcount <= 8 * pos
    }

    /** The bits not yet handed out. */
    ghost function Remaining(): (r: seq<bit>)
      requires Valid()
      reads this, source
      ensures |r| == bitcount + 8 * (source.Length - pos)
    {
      LsbBits(tag, bitcount) + BytesBits(source[pos..])
    }

    /** tinf_getbit */
    method GetBit() returns (b: bit)
      requires Valid() && Remaining() != []
      modifies this
      ensures Valid()
      ensures b == old(Remaining())[0] && Remaining() == old(Remaining())[1..]
    {
      if bitcount == 0 {
        assert source[pos..][1..] == source[pos + 1..];
        tag := source[pos];
        pos := pos + 1;
        bitcount := 7;
      } else {
        bitcount := bitcount - 1;
      }
      b := tag % 2;
      tag := tag / 2;
      assert LsbBits(2 * tag + b, bitcount + 1) == [b] + LsbBits(tag, bitcount);
    }

    /** tinf_read_bits: a `num`-bit number, least significant bit first, plus `base`. */
    method ReadBits(num: nat, base: nat, ghost v: nat, ghost rest: seq<bit>) returns (r: nat)
      requires Valid() && v < Pow2(num)
      requires Remaining() == LsbBits(v, num) + rest
      modifies this
      ensures Valid() && Remaining() == rest
      ensures r == base + v
    {
      var val := 0;
      if num != 0 {
        var limit := Pow2(num);
        var mask := 1;
        ghost var w: nat, k: nat := v, 0;
        while mask < limit
          invariant k <= num && mask == Pow2(k) && w < Pow2(num - k)
          invariant v == val + mask * w
          invariant Valid() && Remaining() == LsbBits(w, num - k) + rest
          decreases num - k
        {
          assert LsbBits(w, num - k) == [w % 2] + LsbBits(w / 2, num - (k + 1));
          assert Remaining() == [w % 2] + (LsbBits(w / 2, num - (k + 1)) + rest);
          assert Remaining()[1..] == LsbBits(w / 2, num - (k + 1)) + rest;
          var bits := GetBit();
          if bits != 0 { val := val + mask; }
          MaskStep(mask, w);
          w, k := w / 2, k + 1;
          mask := mask * 2;
        }
        Pow2Mono(k, num);
      }
      r := val + base;
    }

    /** tinf_decode_symbol: whatever symbol's code comes next is the one returned. */
    method DecodeSymbol(t: Tree, ghost lens: seq<nat>, ghost s: nat, ghost rest: seq<bit>) returns (r: nat)
      requires Valid() && t.Built(lens) && Kraft(lens) && HasCode(lens, s)
      requires Remaining() == CodeBits(lens, s) + rest
      modifies this
      ensures Valid() && Remaining() == rest
      ensures r == s
    {
      var sum: int, cur: int, len := 0, 0, 0;
      hide Kraft, KraftSum, Count, FirstCode, MsbBits, Pow2;
      ghost var L, code := lens[s], Code(lens, s);
      ghost var w: nat := code;
      CodeFits(lens, s);
      while true
        invariant len < L && w < Pow2(L - len) && cur >= 0
        invariant Valid() && Remaining() == MsbBits(w, L - len) + rest
        invariant (cur + EndCode(lens, len)) * Pow2(L - len) + w == code
        invariant sum == Offset(lens, len + 1)
        decreases L - len
      {
        ghost var b, w' := SymbolStep(lens, s, len, cur, w);
        assert Remaining() == [b] + (MsbBits(w', L - len - 1) + rest);
        assert Remaining()[1..] == MsbBits(w', L - len - 1) + rest;
        w := w';
        var bits := GetBit();
        cur := 2 * cur + bits;
        len := len + 1;
        sum := sum + t.table[len];
        cur := cur - t.table[len];
        if cur < 0 { break; }
      }
      PlaceBound(lens, s);
      assert t.Placed(lens, s);
      r := t.trans[sum + cur];
    }
  }
}

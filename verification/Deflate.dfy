/** The DEFLATE format as an encoder: what bits a compressor writes, and what text they stand for.
    Sections 3.2.3 to 3.2.7 of RFC 1951. */
module Deflate {
  import opened Bits
  import opened Common
  import opened Huffman

  // ----- tables of section 3.2.5 -----

  const LENGTH_BITS: seq<nat> :=
    [0, 0, 0, 0, 0, 0, 0, 0, 1, 1, 1, 1, 2, 2, 2, 2, 3, 3, 3, 3, 4, 4, 4, 4, 5, 5, 5, 5, 0]
  const LENGTH_BASE: seq<nat> :=
    [3, 4, 5, 6, 7, 8, 9, 10, 11, 13, 15, 17, 19, 23, 27, 31, 35, 43, 51, 59, 67, 83, 99, 115,
     131, 163, 195, 227, 258]
  const DIST_BITS: seq<nat> :=
    [0, 0, 0, 0, 1, 1, 2, 2, 3, 3, 4, 4, 5, 5, 6, 6, 7, 7, 8, 8, 9, 9, 10, 10, 11, 11, 12, 12, 13, 13]
  const DIST_BASE: seq<nat> :=
    [1, 2, 3, 4, 5, 7, 9, 13, 17, 25, 33, 49, 65, 97, 129, 193, 257, 385, 513, 769, 1025, 1537,
     2049, 3073, 4097, 6145, 8193, 12289, 16385, 24577]

  /** The order in which code lengths of the code length alphabet are sent (section 3.2.7). */
  const CLC_ORDER: seq<nat> :=
    [16, 17, 18, 0, 8, 7, 9, 6, 10, 5, 11, 4, 12, 3, 13, 2, 14, 1, 15]

  function At(t: seq<nat>, i: nat): nat {
    if i < |t| then t[i] else 0
  }

  function ClcOrder(i: nat): (k: nat)
    ensures i < 19 ==> k < 19
  {
    At(CLC_ORDER, i)
  }

  function LBits(lcode: nat): nat { At(LENGTH_BITS, lcode) }

  function LBase(lcode: nat): nat { At(LENGTH_BASE, lcode) }

  function DBits(dcode: nat): nat { At(DIST_BITS, dcode) }

  function DBase(dcode: nat): (b: nat)
    ensures dcode < 30 ==> b > 0
  {
    At(DIST_BASE, dcode)
  }

  const END_OF_BLOCK: nat := 256

  // ----- tokens -----

  /** A literal byte, or a match given by its two codes and their extra bits. */
  datatype Token =
    | Literal(b: byte)
    | Match(lcode: nat, lextra: nat, dcode: nat, dextra: nat)
  {
    predicate InRange() {
      Match? ==>
        && lcode < 29 && lextra < Pow2(LBits(lcode))
        && dcode < 30 && dextra < Pow2(DBits(dcode))
    }

    function Length(): nat
      requires Match? && InRange()
    {
      LBase(lcode) + lextra
    }

    function Distance(): nat
      requires Match? && InRange()
    {
      DBase(dcode) + dextra
    }

    predicate HasCodes(ll: seq<nat>, dl: seq<nat>) {
      && InRange()
      && match this
         case Literal(b) => HasCode(ll, b)
         case Match(lc, _, dc, _) => HasCode(ll, 257 + lc) && HasCode(dl, dc)
    }

    function Encode(ll: seq<nat>, dl: seq<nat>): seq<bit> {
      match this
      case Literal(b) => CodeBits(ll, b)
      case Match(lc, le, dc, de) =>
        CodeBits(ll, 257 + lc) + (LsbBits(le, LBits(lc))
        + (CodeBits(dl, dc) + LsbBits(de, DBits(dc))))
    }

    /** The match must not reach back before the start of the output. */
    predicate Fits(out: seq<byte>) {
      Match? ==> InRange() && Distance() <= |out|
    }

    function Expand(out: seq<byte>): seq<byte>
      requires Fits(out)
    {
      match this
      case Literal(b) => out + [b]
      case Match(_, _, _, _) => CopyMatch(out, Length(), Distance())
    }
  }

  /** LZ77: append, one at a time, `len` bytes each found `dist` back. */
  function CopyMatch(out: seq<byte>, len: nat, dist: nat): (r: seq<byte>)
    requires 0 < dist <= |out|
    ensures |r| == |out| + len
    decreases len
  {
    if len == 0 then out else CopyMatch(out + [out[|out| - dist]], len - 1, dist)
  }

  ghost predicate AllHaveCodes(toks: seq<Token>, ll: seq<nat>, dl: seq<nat>) {
    && HasCode(ll, END_OF_BLOCK)
    && forall i :: 0 <= i < |toks| ==> toks[i].HasCodes(ll, dl)
  }

  function EncodeTokens(toks: seq<Token>, ll: seq<nat>, dl: seq<nat>): seq<bit> {
    if toks == [] then CodeBits(ll, END_OF_BLOCK)
    else toks[0].Encode(ll, dl) + EncodeTokens(toks[1..], ll, dl)
  }

  predicate TokensFit(out: seq<byte>, toks: seq<Token>)
    decreases toks
  {
    toks == [] || (toks[0].Fits(out) && TokensFit(toks[0].Expand(out), toks[1..]))
  }

  function ExpandTokens(out: seq<byte>, toks: seq<Token>): seq<byte>
    requires TokensFit(out, toks)
    decreases toks
  {
    if toks == [] then out else ExpandTokens(toks[0].Expand(out), toks[1..])
  }

  // ----- the code lengths of a dynamic block -----

  datatype LengthCode =
    | Len(l: nat)          // 0 to 15: a code length
    | Again(extra: nat)    // 16: the previous length again, 3 + extra times
    | Zeros(extra: nat)    // 17: 3 + extra zeros
    | ManyZeros(extra: nat) // 18: 11 + extra zeros
  {
    predicate InRange() {
      match this
      case Len(l) => l <= 15
      case Again(x) => x < 4
      case Zeros(x) => x < 8
      case ManyZeros(x) => x < 128
    }

    function Symbol(): nat {
      match this
      case Len(l) => l
      case Again(_) => 16
      case Zeros(_) => 17
      case ManyZeros(_) => 18
    }

    function Extra(): seq<bit> {
      match this
      case Len(_) => []
      case Again(x) => LsbBits(x, 2)
      case Zeros(x) => LsbBits(x, 3)
      case ManyZeros(x) => LsbBits(x, 7)
    }

    function Encode(clens: seq<nat>): seq<bit> {
      CodeBits(clens, Symbol()) + Extra()
    }

    function Expand(lens: seq<nat>): seq<nat>
      requires Again? ==> lens != []
    {
      match this
      case Len(l) => lens + [l]
      case Again(x) => lens + Repeated(lens[|lens| - 1], 3 + x)
      case Zeros(x) => lens + Repeated(0, 3 + x)
      case ManyZeros(x) => lens + Repeated(0, 11 + x)
    }
  }

  predicate LengthCodesOk(lens: seq<nat>, codes: seq<LengthCode>, clens: seq<nat>)
    decreases codes
  {
    codes == [] ||
    (&& codes[0].InRange() && HasCode(clens, codes[0].Symbol())
     && (codes[0].Again? ==> lens != [])
     && LengthCodesOk(codes[0].Expand(lens), codes[1..], clens))
  }

  function ExpandLengths(lens: seq<nat>, codes: seq<LengthCode>, clens: seq<nat>): seq<nat>
    requires LengthCodesOk(lens, codes, clens)
    decreases codes
  {
    if codes == [] then lens else ExpandLengths(codes[0].Expand(lens), codes[1..], clens)
  }

  function EncodeLengths(codes: seq<LengthCode>, clens: seq<nat>): seq<bit> {
    if codes == [] then [] else codes[0].Encode(clens) + EncodeLengths(codes[1..], clens)
  }

  /** The 3-bit lengths from position `i` of the transmission order on. */
  function EncodeClens(clens: seq<nat>, i: nat, hclen: nat): seq<bit>
    decreases hclen - i
  {
    if i >= hclen then [] else LsbBits(At(clens, ClcOrder(i)), 3) + EncodeClens(clens, i + 1, hclen)
  }

  /** The description of a dynamic block's two codes (section 3.2.7). */
  datatype Header = Header(hlit: nat, hdist: nat, hclen: nat, clens: seq<nat>, codes: seq<LengthCode>) {
    predicate Valid() {
      && hlit < 32 && hdist < 32 && hclen < 16
      && |clens| == 19 && (forall i :: 0 <= i < 19 ==> clens[i] < 8)
      && (forall i :: hclen + 4 <= i < 19 ==> clens[ClcOrder(i)] == 0)
      && Kraft(clens)
      && LengthCodesOk([], codes, clens)
      && |Lens()| == NumLit() + NumDist()
      && Kraft(LitLens()) && Kraft(DistLens())
    }

    function NumLit(): nat { 257 + hlit }

    function NumDist(): nat { 1 + hdist }

    function Lens(): seq<nat> {
      if LengthCodesOk([], codes, clens) then ExpandLengths([], codes, clens) else []
    }

    function LitLens(): seq<nat> {
      if NumLit() <= |Lens()| then Lens()[..NumLit()] else []
    }

    function DistLens(): seq<nat> {
      if NumLit() <= |Lens()| then Lens()[NumLit()..] else []
    }

    function Encode(): seq<bit> {
      LsbBits(hlit, 5) + (LsbBits(hdist, 5) + (LsbBits(hclen, 4)
      + (EncodeClens(clens, 0, hclen + 4) + EncodeLengths(codes, clens))))
    }
  }

  // ----- a header for any two codes -----

  function AsCodes(lens: seq<nat>): (r: seq<LengthCode>)
    ensures |r| == |lens|
  {
    seq(|lens|, i requires 0 <= i < |lens| => Len(lens[i]))
  }

  /** Sixteen codes of four bits, for the code lengths 0 to 15. */
  const FLAT_CLENS: seq<nat> := Repeated(4, 16) + Repeated(0, 3)

  lemma {:induction false} ExpandAsCodes(done: seq<nat>, lens: seq<nat>)
    requires forall i :: 0 <= i < |lens| ==> lens[i] <= MAX_BITS
    ensures LengthCodesOk(done, AsCodes(lens), FLAT_CLENS)
    ensures ExpandLengths(done, AsCodes(lens), FLAT_CLENS) == done + lens
    decreases |lens|
  {
    if lens != [] {
      assert AsCodes(lens)[0] == Len(lens[0]) && AsCodes(lens)[1..] == AsCodes(lens[1..]);
      ExpandAsCodes(done + [lens[0]], lens[1..]);
      assert done + [lens[0]] + lens[1..] == done + lens;
      assert Repeated<nat>(4, 16)[lens[0]] == 4;
    }
  }

  lemma {:induction false} KraftOfRepeated(x: nat, n: nat)
    requires 0 < x <= MAX_BITS
    ensures KraftSum(Repeated(x, n)) == n * Pow2(MAX_BITS - x)
  {
    if n > 0 {
      assert Repeated(x, n)[..n - 1] == Repeated(x, n - 1);
      KraftOfRepeated(x, n - 1);
    }
  }

  lemma {:induction false} KraftOfZeros(lens: seq<nat>, n: nat)
    ensures KraftSum(lens + Repeated(0, n)) == KraftSum(lens)
  {
    if n == 0 {
      assert lens + Repeated(0, 0) == lens;
    } else {
      assert (lens + Repeated(0, n))[..|lens| + n - 1] == lens + Repeated(0, n - 1);
      KraftOfZeros(lens, n - 1);
    }
  }

  lemma FlatIsComplete()
    ensures KraftSum(FLAT_CLENS) == Pow2(MAX_BITS)
  {
    KraftOfRepeated(4, 16);
    KraftOfZeros(Repeated(4, 16), 3);
    assert Pow2(15) == 2 * Pow2(14) == 4 * Pow2(13) == 8 * Pow2(12) == 16 * Pow2(11);
  }

  /** Any two codes within Kraft's inequality have a dynamic header. */
  lemma EveryCodeHasHeader(ll: seq<nat>, dl: seq<nat>) returns (h: Header)
    requires 257 <= |ll| <= 288 && 1 <= |dl| <= 32 && Kraft(ll) && Kraft(dl)
    requires forall i :: 0 <= i < |ll| ==> ll[i] <= MAX_BITS
    requires forall i :: 0 <= i < |dl| ==> dl[i] <= MAX_BITS
    ensures h.Valid() && h.LitLens() == ll && h.DistLens() == dl
  {
    hide KraftSum, LengthCodesOk, ExpandLengths, Pow2, ClcOrder;
    h := Header(|ll| - 257, |dl| - 1, 15, FLAT_CLENS, AsCodes(ll + dl));
    FlatIsComplete();
    ExpandAsCodes([], ll + dl);
    assert [] + (ll + dl) == ll + dl;
    assert h.Lens() == ll + dl;
  }

  // ----- blocks and streams -----

  /** The fixed code lengths of section 3.2.6. */
  const FIXED_LIT: seq<nat> := Repeated(8, 144) + Repeated(9, 112) + Repeated(7, 24) + Repeated(8, 8)
  const FIXED_DIST: seq<nat> := Repeated(5, 32)

  datatype Block =
    | Stored(pad: seq<bit>, data: seq<byte>)
    | Fixed(toks: seq<Token>)
    | Dynamic(header: Header, toks: seq<Token>)
  {
    function Type(): nat {
      match this
      case Stored(_, _) => 0
      case Fixed(_) => 1
      case Dynamic(_, _) => 2
    }

    /** `at` is the bit position right after the three header bits. */
    ghost predicate Valid(at: nat, out: seq<byte>) {
      match this
      case Stored(pad, data) => |data| < 65536 && Aligns(at, pad)
      case Fixed(toks) => AllHaveCodes(toks, FIXED_LIT, FIXED_DIST) && TokensFit(out, toks)
      case Dynamic(h, toks) =>
        h.Valid() && AllHaveCodes(toks, h.LitLens(), h.DistLens()) && TokensFit(out, toks)
    }

    ghost function Encode(): seq<bit> {
      match this
      case Stored(pad, data) => if |data| < 65536 then pad + StoredBits(|data|, 65535 - |data|, data) else []
      case Fixed(toks) => EncodeTokens(toks, FIXED_LIT, FIXED_DIST)
      case Dynamic(h, toks) => h.Encode() + EncodeTokens(toks, h.LitLens(), h.DistLens())
    }

    ghost function Expand(out: seq<byte>): seq<byte> {
      match this
      case Stored(_, data) => out + data
      case Fixed(toks) => if TokensFit(out, toks) then ExpandTokens(out, toks) else out
      case Dynamic(_, toks) => if TokensFit(out, toks) then ExpandTokens(out, toks) else out
    }
  }

  /** The bits skipped to reach a byte boundary. */
  predicate Aligns(at: nat, pad: seq<bit>) {
    |pad| < 8 && (at + |pad|) % 8 == 0
  }

  function StoredBits(len: nat, nlen: nat, data: seq<byte>): seq<bit> {
    LsbBits(len, 16) + (LsbBits(nlen, 16) + BytesBits(data))
  }

  /** A sequence of blocks; the last one is marked final, or is one that a decoder must reject. */
  datatype Stream =
    | Last(block: Block)
    | More(block: Block, rest: Stream)
    | Reserved(bfinal: bit)
    | BadStored(bfinal: bit, pad: seq<bit>, len: nat, nlen: nat)
  {
    ghost predicate Valid(at: nat, out: seq<byte>)
      decreases this
    {
      match this
      case Last(b) => b.Valid(at + 3, out)
      case More(b, rest) => b.Valid(at + 3, out) && rest.Valid(at + 3 + |b.Encode()|, b.Expand(out))
      case Reserved(_) => true
      case BadStored(_, pad, len, nlen) =>
        Aligns(at + 3, pad) && len < 65536 && nlen < 65536 && len + nlen != 65535
    }

    function FinalBit(): bit {
      match this
      case Last(_) => 1
      case More(_, _) => 0
      case Reserved(f) => f
      case BadStored(f, _, _, _) => f
    }

    function Type(): nat {
      match this
      case Last(b) => b.Type()
      case More(b, _) => b.Type()
      case Reserved(_) => 3
      case BadStored(_, _, _, _) => 0
    }

    /** What follows the three header bits. */
    ghost function Body(): seq<bit>
      decreases this, 0
    {
      match this
      case Last(b) => b.Encode()
      case More(b, rest) => b.Encode() + rest.Encode()
      case Reserved(_) => []
      case BadStored(_, pad, len, nlen) => pad + StoredBits(len, nlen, [])
    }

    ghost function Encode(): seq<bit>
      decreases this, 1
    {
      [FinalBit()] + (LsbBits(Type(), 2) + Body())
    }

    /** What follows the first block. */
    ghost function After(): seq<bit> {
      if More? then rest.Encode() else []
    }

    ghost function Expand(out: seq<byte>): seq<byte>
      decreases this
    {
      match this
      case Last(b) => b.Expand(out)
      case More(b, rest) => rest.Expand(b.Expand(out))
      case _ => out
    }

    predicate Accepted() {
      match this
      case Last(_) => true
      case More(_, rest) => rest.Accepted()
      case _ => false
    }
  }
}

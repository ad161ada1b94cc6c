/** The zlib wrapper of RFC 1950, and the end-to-end round trip. */
module Zlib {
  import opened Arithmetic
  import opened Bits
  import opened Common
  import opened Deflate
  import opened InflateTables
  import opened Inflate
  import opened Adler32

  /** Section 2.2 of RFC 1950, minus preset dictionaries, which the decoder refuses. */
  predicate HeaderOk(cmf: byte, flg: byte) {
    && (256 * cmf as nat + flg as nat) % 31 == 0
    && cmf % 16 == 8 && cmf / 16 <= 7
    && (flg / 32) % 2 == 0
  }

  /** The header is accepted exactly when it is put together of the fields that RFC 1950 allows: window size 0 to 7,
      compression method 8, any level, no dictionary, and the check bits that make it a multiple of 31. */
  lemma HeaderFields(cmf: byte, flg: byte)
    ensures HeaderOk(cmf, flg) <==>
      exists info: nat, level: nat, check: nat ::
        info < 8 && level < 4 && check < 32 && Packed(cmf, flg, info, level, check)
  {
    forall info: nat, level: nat, check: nat |
      info < 8 && level < 4 && check < 32 && Packed(cmf, flg, info, level, check)
      ensures HeaderOk(cmf, flg)
    {
      FieldsOk(cmf, flg, info, level, check);
    }
    if HeaderOk(cmf, flg) { FieldsOf(cmf, flg); }
    hide HeaderOk, Packed;
  }

  lemma FieldsOk(cmf: byte, flg: byte, info: nat, level: nat, check: nat)
    requires info < 8 && level < 4 && check < 32 && Packed(cmf, flg, info, level, check)
    ensures HeaderOk(cmf, flg)
  {
    Quotients(cmf as nat, flg as nat, info, level, check);
  }

  lemma Quotients(c: nat, f: nat, info: nat, level: nat, check: nat)
    requires check < 32 && c == 16 * info + 8 && f == 64 * level + check
    ensures c / 16 == info && c % 16 == 8 && f / 32 % 2 == 0
  {
  }

  lemma FieldsOf(cmf: byte, flg: byte)
    requires HeaderOk(cmf, flg)
    ensures exists info: nat, level: nat, check: nat ::
      info < 8 && level < 4 && check < 32 && Packed(cmf, flg, info, level, check)
  {
    Fields(cmf as nat, flg as nat);
    assert Packed(cmf, flg, cmf as nat / 16, flg as nat / 64, flg as nat % 64);
  }

  lemma Fields(c: nat, f: nat)
    requires c % 16 == 8 && f / 32 % 2 == 0
    ensures c == 16 * (c / 16) + 8 && f == 64 * (f / 64) + f % 64 && f % 64 < 32
  {
    var q := f / 32;
    assert q == 2 * (q / 2) && f == 32 * q + f % 32;
    DivUnique(f, 64, q / 2, f % 32);
  }

  predicate Packed(cmf: byte, flg: byte, info: nat, level: nat, check: nat) {
    cmf == 16 * info + 8 && flg == 64 * level + check && (256 * cmf as nat + flg as nat) % 31 == 0
  }

  /** Four bytes, most significant first. */
  function Word32(s: seq<byte>): nat
    requires |s| == 4
  {
    256 * (256 * (256 * s[0] as nat + s[1] as nat) + s[2] as nat) + s[3] as nat
  }

  /** tinf_zlib_uncompress: accepts exactly the streams whose header, blocks and checksum are all right.
      `oldLen` is what *destLen held before the call. */
  method ZlibUncompress(dest: array<byte>, oldLen: nat, source: array<byte>, sourceLen: nat,
                        tables: StaticTables, ghost st: Stream, ghost tail: seq<bit>)
    returns (res: Status, destLen: nat)
    requires source != dest && tables.Ready() && 2 <= sourceLen <= source.Length
    requires HeaderOk(source[0], source[1]) ==>
      && 4 <= sourceLen
      && st.Valid(0, []) && BytesBits(source[2..]) == st.Encode() + tail
      && |st.Expand([])| <= dest.Length
    modifies dest
    ensures res == OK <==>
      && old(HeaderOk(source[0], source[1]))
      && st.Accepted() && old(Word32(source[sourceLen - 4..sourceLen])) == Adler(st.Expand([]))
    ensures old(HeaderOk(source[0], source[1])) ==>
      destLen == |st.Expand([])| && dest[..destLen] == st.Expand([])
    ensures !old(HeaderOk(source[0], source[1])) ==> destLen == oldLen && dest[..] == old(dest[..])
  {
    hide Sum1, Sum2, StaticTables.Ready, Stream.Encode, Stream.Valid, Stream.Expand, BytesBits, HeaderOk, Word32;
    var accepted := CheckHeader(source[0], source[1]);
    if !accepted { return DATA_ERROR, oldLen; }
    var a32 := ReadWord(source, sourceLen - 4);
    res, destLen := Uncompress(dest, source, 2, tables, st, tail);
    if res != OK { return DATA_ERROR, destLen; }
    var sum := ComputeAdler(dest, destLen);
    if a32 != sum { return DATA_ERROR, destLen; }
    res := OK;
  }

  /** The checks of the format. */
  method CheckHeader(cmf: byte, flg: byte) returns (ok: bool)
    ensures ok == HeaderOk(cmf, flg)
  {
    if (256 * cmf as nat + flg as nat) % 31 != 0 { return false; }
    if cmf % 16 != 8 { return false; }
    if cmf / 16 > 7 { return false; }
    if (flg / 32) % 2 != 0 { return false; }
    return true;
  }

  /** The checksum behind the data. */
  method ReadWord(source: array<byte>, at: nat) returns (a32: nat)
    requires at + 4 <= source.Length
    ensures a32 == Word32(source[at..at + 4])
  {
    a32 := source[at];
    a32 := 256 * a32 + source[at + 1];
    a32 := 256 * a32 + source[at + 2];
    a32 := 256 * a32 + source[at + 3];
  }

  // ----- the matching encoder -----

  function Bytes32(v: nat): seq<byte>
    requires v < 0x1_0000_0000
  {
    [v / 0x100_0000, v / 0x1_0000 % 256, v / 0x100 % 256, v % 256]
  }

  function Padding(n: nat): nat {
    (8 - n % 8) % 8
  }

  ghost function ZlibEncode(st: Stream): seq<byte> {
    var bits := st.Encode();
    [0x78, 0x01] + Pack(bits + Repeated(0, Padding(|bits|))) + Bytes32(Adler(st.Expand([])))
  }

  /** Whatever the encoder writes meets the decoder's demands, and carries the right checksum; so
      ZlibUncompress returns OK on it and rebuilds the text. */
  lemma ZlibRoundTrip(st: Stream) returns (tail: seq<bit>)
    ensures var z := ZlibEncode(st);
      && |z| >= 6
      && HeaderOk(z[0], z[1])
      && BytesBits(z[2..]) == st.Encode() + tail
      && Word32(z[|z| - 4..]) == Adler(st.Expand([]))
  {
    var bits, sum := st.Encode(), Adler(st.Expand([]));
    hide Stream.Encode, Stream.Expand, Adler, BytesBits, Pack;
    var z := ZlibEncode(st);
    var padded := bits + Repeated(0, Padding(|bits|));
    assert |padded| % 8 == 0;
    assert z[2..] == Pack(padded) + Bytes32(sum);
    BytesBitsConcat(Pack(padded), Bytes32(sum));
    BytesBitsOfPack(padded);
    tail := Repeated(0, Padding(|bits|)) + BytesBits(Bytes32(sum));
    assert bits + tail == padded + BytesBits(Bytes32(sum));
    assert z[|z| - 4..] == Bytes32(sum);
    WordOfBytes(sum);
  }

  /** Decoder after encoder is the identity, for every stream of blocks. */
  method DecodeEncoded(dest: array<byte>, source: array<byte>, tables: StaticTables, ghost st: Stream)
    returns (res: Status, destLen: nat)
    requires source != dest && tables.Ready()
    requires st.Valid(0, []) && st.Accepted() && |st.Expand([])| <= dest.Length
    requires source[..] == ZlibEncode(st)
    modifies dest
    ensures res == OK && destLen <= dest.Length && dest[..destLen] == st.Expand([])
  {
    ghost var tail := ZlibRoundTrip(st);
    hide ZlibEncode, HeaderOk, BytesBits, Stream.Encode, Stream.Expand, Stream.Valid, Adler, StaticTables.Ready;
    assert source[2..] == source[..][2..];
    assert source[source.Length - 4..source.Length] == source[..][source.Length - 4..];
    res, destLen := ZlibUncompress(dest, 0, source, source.Length, tables, st, tail);
  }

  lemma WordOfBytes(v: nat)
    requires v < 0x1_0000_0000
    ensures Word32(Bytes32(v)) == v
  {
  }

  // ----- what tokens can say -----

  lemma {:induction false} CopyMatchKeeps(out: seq<byte>, len: nat, dist: nat)
    requires 0 < dist <= |out|
    ensures CopyMatch(out, len, dist)[..|out|] == out
    decreases len
  {
    if len > 0 {
      var next := out + [out[|out| - dist]];
      CopyMatchKeeps(next, len - 1, dist);
      assert CopyMatch(next, len - 1, dist)[..|out|] == next[..|out|];
    }
  }

  /** An overlapping copy repeats the last `dist` bytes periodically. */
  lemma {:induction false} CopyMatchRepeats(out: seq<byte>, len: nat, dist: nat, k: nat)
    requires 0 < dist <= |out| && k < len
    ensures CopyMatch(out, len, dist)[|out| + k] == out[|out| - dist + k % dist]
    decreases len
  {
    var next := out + [out[|out| - dist]];
    var r := CopyMatch(next, len - 1, dist);
    assert CopyMatch(out, len, dist) == r;
    hide CopyMatch;
    if k == 0 {
      CopyMatchKeeps(next, len - 1, dist);
      assert r[|out|] == r[..|next|][|out|];
    } else {
      CopyMatchRepeats(next, len - 1, dist, k - 1);
      assert r[|out| + k] == next[|out| + 1 - dist + (k - 1) % dist];
      Wrap(k, dist);
    }
  }

  lemma Wrap(k: nat, dist: nat)
    requires k > 0 && dist > 0
    ensures k % dist == if (k - 1) % dist == dist - 1 then 0 else (k - 1) % dist + 1
  {
    var q, r := (k - 1) / dist, (k - 1) % dist;
    assert k - 1 == q * dist + r;
    if r == dist - 1 {
      assert k == (q + 1) * dist;
      DivUnique(k, dist, q + 1, 0);
    } else {
      DivUnique(k, dist, q, r + 1);
    }
  }

  /** Every match length from 3 to 258 and every distance up to 32768 has a token, usable with the fixed codes. */
  lemma EveryMatchHasToken(len: nat, dist: nat) returns (t: Token)
    requires 3 <= len <= 258 && 1 <= dist <= 32768
    ensures t.Match? && t.HasCodes(FIXED_LIT, FIXED_DIST) && t.Length() == len && t.Distance() == dist
  {
    FixedLengths();
    SmallPowers();
    LengthSteps();
    DistSteps();
    hide Pow2;
    var lc, le := 28, 0;
    if len < 258 { lc, le := Locate(LENGTH_BITS[..28], LENGTH_BASE[..28], len, 27); }
    var dc, de := Locate(DIST_BITS, DIST_BASE, dist, 29);
    t := Match(lc, le, dc, de);
  }

  /** The last table row that does not exceed v is the one whose range holds v. */
  lemma {:induction false} Locate(bits: seq<nat>, base: seq<nat>, v: nat, i: nat) returns (c: nat, extra: nat)
    requires |bits| == |base| > i && base[0] <= v < base[i] + Pow2(bits[i])
    requires forall j :: 0 <= j < i ==> base[j + 1] == base[j] + Pow2(bits[j])
    ensures c <= i && base[c] + extra == v && extra < Pow2(bits[c])
  {
    if base[i] <= v {
      c, extra := i, v - base[i];
    } else {
      c, extra := Locate(bits, base, v, i - 1);
    }
  }
}

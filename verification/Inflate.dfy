/** The inflater: it undoes every encoding that Deflate describes. */
module Inflate {
  import opened Bits
  import opened Common
  import opened Huffman
  import opened BitReader
  import opened Deflate
  import opened InflateTables

  datatype Status = OK | DATA_ERROR

  /** TINF_DATA, with the bit-level fields kept in a Reader. */
  class Inflater {
    const reader: Reader
    const dest: array<byte>
    const tables: StaticTables
    const ltree: Tree
    const dtree: Tree
    var pos: nat       // d->dest - dest
    var destLen: nat   // *d->destLen

    constructor (source: array<byte>, from: nat, dest: array<byte>, tables: StaticTables)
      requires from <= source.Length && source != dest && tables.Ready()
      ensures Valid() && fresh(reader) && this.dest == dest && this.tables == tables && reader.source == source
      ensures fresh(ltree.table) && fresh(ltree.trans) && fresh(dtree.table) && fresh(dtree.trans)
      ensures reader.Remaining() == BytesBits(source[from..]) && Position() == 8 * from
      ensures pos == 0 && destLen == 0
    {
      reader := new Reader(source, from);
      this.dest := dest;
      this.tables := tables;
      ltree := new Tree();
      dtree := new Tree();
      pos, destLen := 0, 0;
    }

    ghost predicate Valid()
      reads this, reader, tables
      reads tables.sltree.table, tables.sltree.trans, tables.sdtree.table, tables.sdtree.trans
      reads tables.lengthBits, tables.lengthBase, tables.distBits, tables.distBase
    {
      && reader.Valid() && reader.source != dest
      && pos <= dest.Length
      && tables.Ready() && ltree.Shape() && dtree.Shape()
      && DistinctTables()
    }

    /** The dynamic trees share no storage with each other or with the global tables. */
    ghost predicate DistinctTables()
      reads tables
    {
      && {ltree.table, ltree.trans} !! {dtree.table, dtree.trans}
      && {ltree.table, ltree.trans, dtree.table, dtree.trans} !!
         {tables.sltree.table, tables.sltree.trans, tables.sdtree.table, tables.sdtree.trans,
          tables.lengthBits, tables.lengthBase, tables.distBits, tables.distBase}
    }

    /** How many bits have been read, counted from the start of the source. */
    ghost function Position(): (p: nat)
      requires reader.Valid()
      reads reader, reader.source
      ensures p + |reader.Remaining()| == 8 * reader.source.Length
    {
      8 * reader.pos - reader.bitcount
    }

    ghost function Out(): seq<byte>
      requires pos <= dest.Length
      reads this, dest
    {
      dest[..pos]
    }

    /** *d->dest++ = b */
    method PutByte(b: byte)
      requires Valid() && pos < dest.Length
      modifies this`pos, dest
      ensures Valid() && pos == old(pos) + 1 && Out() == old(Out()) + [b]
    {
      dest[pos] := b;
      pos := pos + 1;
    }

    /** The match copy of tinf_inflate_block_data; source and target may overlap. */
    method CopyBack(length: nat, offs: nat)
      requires 0 < offs <= pos && pos + length <= dest.Length
      modifies this`pos, dest
      ensures pos == old(pos) + length && Out() == CopyMatch(old(Out()), length, offs)
    {
      ghost var target := CopyMatch(Out(), length, offs);
      var i := 0;
      while i < length
        invariant i <= length && pos == old(pos)
        invariant CopyMatch(dest[..pos + i], length - i, offs) == target
      {
        ghost var before := dest[..pos + i];
        CopyStep(before, length - i, offs);
        hide CopyMatch;
        dest[pos + i] := dest[pos + i - offs];
        assert dest[..pos + i + 1] == before + [before[|before| - offs]];
        i := i + 1;
      }
      pos := pos + length;
    }

    /** What is left of a match after its length code: extra bits, distance code, extra bits. */
    method ReadMatch(lcode: nat, dt: Tree, ghost dl: seq<nat>, ghost t: Token, ghost tail: seq<bit>)
      returns (length: nat, offs: nat)
      requires reader.Valid() && tables.Ready() && dt.Built(dl) && Kraft(dl)
      requires t.Match? && t.InRange() && HasCode(dl, t.dcode) && t.lcode == lcode
      requires reader.Remaining() == MatchTail(t, dl, tail)
      modifies reader
      ensures reader.Valid() && reader.Remaining() == tail && length == t.Length() && offs == t.Distance()
    {
      hide Pow2, CodeBits, LsbBits, Tree.Built, Kraft, LBits, LBase, DBits, DBase;
      ghost var rest := LsbBits(t.dextra, DBits(t.dcode)) + tail;
      length := reader.ReadBits(tables.lengthBits[lcode], tables.lengthBase[lcode], t.lextra,
                                CodeBits(dl, t.dcode) + rest);
      var dist := reader.DecodeSymbol(dt, dl, t.dcode, rest);
      offs := reader.ReadBits(tables.distBits[dist], tables.distBase[dist], t.dextra, tail);
    }

    /** The match branch of tinf_inflate_block_data: read the rest of the token, then copy. */
    method InflateMatch(lcode: nat, dt: Tree, ghost dl: seq<nat>, ghost t: Token, ghost tail: seq<bit>)
      requires Valid() && dt.Built(dl) && Kraft(dl)
      requires t.Match? && t.InRange() && HasCode(dl, t.dcode) && t.lcode == lcode
      requires reader.Remaining() == MatchTail(t, dl, tail)
      requires t.Fits(Out()) && pos + t.Length() <= dest.Length
      modifies this`pos, reader, dest
      ensures Valid() && reader.Remaining() == tail && old(pos) <= pos
      ensures Out() == old(t.Expand(Out()))
    {
      hide StaticTables.Ready, DistinctTables, Tree.Built, Kraft, MatchTail, CopyMatch, LBits, LBase, DBits, DBase;
      var length, offs := ReadMatch(lcode, dt, dl, t, tail);
      CopyBack(length, offs);
    }

    /** One turn of the loop in tinf_inflate_block_data; false at the end-of-block code. */
    method InflateToken(lt: Tree, dt: Tree, ghost ll: seq<nat>, ghost dl: seq<nat>,
                        ghost ts: seq<Token>, ghost rest: seq<bit>) returns (more: bool)
      requires Valid() && CodesReady(lt, dt, ll, dl)
      requires AllHaveCodes(ts, ll, dl)
      requires reader.Remaining() == EncodeTokens(ts, ll, dl) + rest
      requires ts != [] ==> ts[0].Fits(Out()) && |ts[0].Expand(Out())| <= dest.Length
      modifies this`pos, reader, dest
      ensures Valid() && old(pos) <= pos
      ensures more == (ts != [])
      ensures more ==> reader.Remaining() == EncodeTokens(ts[1..], ll, dl) + rest
      ensures more ==> Out() == old(ts[0].Expand(Out()))
      ensures !more ==> reader.Remaining() == rest && Out() == old(Out())
    {
      hide Pow2, Count, FirstCode, MsbBits, Offset, CopyMatch, Code, Kraft, LBits, LBase, DBits, DBase;
      hide Tree.Built, Tree.Shape, StaticTables.Ready, DistinctTables;
      ghost var sym', rest' := NextSymbol(ts, ll, dl, rest);
      hide EncodeTokens;
      var sym := reader.DecodeSymbol(lt, ll, sym', rest');
      if sym == END_OF_BLOCK {
        return false;
      }
      if sym < 256 {
        PutByte(sym);
      } else {
        sym := sym - 257;
        InflateMatch(sym, dt, dl, ts[0], EncodeTokens(ts[1..], ll, dl) + rest);
      }
      more := true;
    }

    /** tinf_inflate_block_data */
    method InflateBlockData(lt: Tree, dt: Tree, ghost ll: seq<nat>, ghost dl: seq<nat>,
                            ghost toks: seq<Token>, ghost rest: seq<bit>)
      requires Valid() && CodesReady(lt, dt, ll, dl)
      requires AllHaveCodes(toks, ll, dl)
      requires reader.Remaining() == EncodeTokens(toks, ll, dl) + rest
      requires TokensFit(Out(), toks) && |ExpandTokens(Out(), toks)| <= dest.Length
      modifies this`pos, this`destLen, reader, dest
      ensures Valid()
      ensures reader.Remaining() == rest
      ensures Out() == old(ExpandTokens(Out(), toks))
      ensures destLen == old(destLen) + pos - old(pos)
    {
      hide CodesReady, StaticTables.Ready, DistinctTables, EncodeTokens, AllHaveCodes, Token.Expand, Token.Fits;
      var start := pos;
      ghost var ts := toks;
      ghost var target := ExpandTokens(Out(), toks);
      var more := true;
      while more
        invariant Valid() && CodesReady(lt, dt, ll, dl)
        invariant more ==> AllHaveCodes(ts, ll, dl) && reader.Remaining() == EncodeTokens(ts, ll, dl) + rest
        invariant more ==> TokensFit(Out(), ts) && ExpandTokens(Out(), ts) == target
        invariant !more ==> Out() == target && reader.Remaining() == rest
        invariant destLen == old(destLen) && start <= pos
        decreases more, |ts|
      {
        FirstToken(Out(), ts, ll, dl);
        more := InflateToken(lt, dt, ll, dl, ts, rest);
        if more { ts := ts[1..]; }
      }
      destLen := destLen + (pos - start);
    }

    /** tinf_inflate_uncompressed_block: reads whole bytes and drops the bits left in the tag. */
    method InflateUncompressed(ghost pad: seq<bit>, ghost len: nat, ghost nlen: nat, ghost data: seq<byte>,
                               ghost rest: seq<bit>) returns (res: Status)
      requires Valid() && Aligns(Position(), pad) && len < 65536 && nlen < 65536
      requires reader.Remaining() == pad + StoredBits(len, nlen, data) + rest
      requires len + nlen == 65535 ==> |data| == len && pos + len <= dest.Length
      modifies this`pos, this`destLen, reader, dest
      ensures Valid()
      ensures res == (if len + nlen == 65535 then OK else DATA_ERROR)
      ensures res.OK? ==> reader.Remaining() == rest && Out() == old(Out()) + data && destLen == old(destLen) + len
      ensures res.DATA_ERROR? ==> Out() == old(Out()) && destLen == old(destLen)
    {
      hide StaticTables.Ready, DistinctTables, Tree.Shape, LsbBits, BytesBits, StoredBits, Aligns;
      PadIsTag(reader.pos, reader.bitcount, pad);
      StoredBytes(reader.source[reader.pos..], reader.tag, reader.bitcount, pad, len, nlen, data, rest);
      var at := reader.pos;
      ghost var src := reader.source[at..];
      assert src[0] == reader.source[at] && src[1] == reader.source[at + 1];
      assert src[2] == reader.source[at + 2] && src[3] == reader.source[at + 3];
      var length := Word16(reader.source[at], reader.source[at + 1]);
      var invlength := Word16(reader.source[at + 2], reader.source[at + 3]);
      if length != 65535 - invlength { return DATA_ERROR; }
      reader.pos := reader.pos + 4;
      assert reader.source[at + 4..at + 4 + length] == src[4..4 + length];
      CopyStored(length);
      reader.bitcount := 0;
      destLen := destLen + length;
      assert reader.source[reader.pos..] == src[4 + length..];
      NoBits(reader.tag);
      assert reader.Remaining() == BytesBits(src[4 + length..]);
      return OK;
    }

    /** Copies the next `length` source bytes to the output. */
    method CopyStored(length: nat)
      requires Valid() && reader.pos + length <= reader.source.Length && pos + length <= dest.Length
      modifies this`pos, reader`pos, dest
      ensures pos == old(pos) + length && reader.pos == old(reader.pos) + length
      ensures Out() == old(Out()) + reader.source[old(reader.pos)..old(reader.pos) + length]
    {
      ghost var before, at := Out(), reader.pos;
      var i: nat := length;
      while i > 0
        invariant i <= length && pos == old(pos) + (length - i) && reader.pos == at + (length - i)
        invariant pos <= dest.Length && dest[..pos] == before + reader.source[at..reader.pos]
      {
        ghost var copied := reader.source[at..reader.pos];
        dest[pos] := reader.source[reader.pos];
        pos := pos + 1;
        reader.pos := reader.pos + 1;
        i := i - 1;
        assert reader.source[at..reader.pos] == copied + [dest[pos - 1]];
      }
    }

    /** The first loops of tinf_decode_trees: the code lengths of the code length alphabet. */
    method ReadClens(lengths: array<nat>, hclen: nat, ghost clens: seq<nat>, ghost rest: seq<bit>)
      requires reader.Valid() && lengths.Length >= 19 && hclen <= 19
      requires |clens| == 19 && (forall i :: 0 <= i < 19 ==> clens[i] < 8)
      requires forall i :: hclen <= i < 19 ==> clens[ClcOrder(i)] == 0
      requires reader.Remaining() == EncodeClens(clens, 0, hclen) + rest
      modifies reader, lengths
      ensures reader.Valid() && reader.Remaining() == rest
      ensures lengths[..19] == clens
    {
      assert Pow2(3) == 8;
      hide Pow2, ClcOrder, LsbBits;
      for i := 0 to 19
        invariant forall k :: 0 <= k < i ==> lengths[k] == 0
        invariant reader.Valid() && reader.Remaining() == EncodeClens(clens, 0, hclen) + rest
      {
        lengths[i] := 0;
      }
      for i := 0 to hclen
        invariant reader.Valid() && reader.Remaining() == EncodeClens(clens, i, hclen) + rest
        invariant forall j :: 0 <= j < i ==> lengths[ClcOrder(j)] == clens[ClcOrder(j)]
        invariant forall j :: i <= j < 19 ==> lengths[ClcOrder(j)] == 0
      {
        hide EncodeClens;
        ghost var tail := EncodeClens(clens, i + 1, hclen) + rest;
        NextClen(clens, i, hclen, rest);
        var clen := reader.ReadBits(3, 0, clens[ClcOrder(i)], tail);
        ClcOrderInjective(i);
        lengths[ClcOrder(i)] := clen;
      }
      forall k: nat | k < 19 ensures lengths[k] == clens[k] {
        var j := ClcOrderOnto(k);
      }
    }

    /** The repeat loops of tinf_decode_trees. */
    method Fill(lengths: array<nat>, num: nat, length: nat, value: nat)
      requires num + length <= lengths.Length
      modifies lengths
      ensures lengths[..num + length] == old(lengths[..num]) + Repeated(value, length)
    {
      ghost var before := lengths[..num];
      var i := length;
      var at := num;
      while i > 0
        invariant 0 <= i <= length && at == num + (length - i)
        invariant lengths[..at] == before + Repeated(value, length - i)
      {
        lengths[at] := value;
        at := at + 1;
        i := i - 1;
        assert lengths[..at] == before + Repeated(value, length - i - 1) + [value];
      }
    }

    /** A repeat case of tinf_decode_trees: a count of `bits` extra bits over `base`, then the loop. */
    method RepeatLength(lengths: array<nat>, num: nat, value: nat, bits: nat, base: nat,
                        ghost lens: seq<nat>, ghost extra: nat, ghost tail: seq<bit>) returns (num': nat)
      requires reader.Valid() && extra < Pow2(bits) && num + base + extra <= lengths.Length
      requires lengths[..num] == lens
      requires reader.Remaining() == LsbBits(extra, bits) + tail
      modifies reader, lengths
      ensures reader.Valid() && reader.Remaining() == tail
      ensures num' == num + base + extra && lengths[..num'] == lens + Repeated(value, base + extra)
    {
      var length := reader.ReadBits(bits, base, extra, tail);
      Fill(lengths, num, length, value);
      num' := num + length;
    }

    /** One turn of the run-length loop of tinf_decode_trees. */
    method ReadLengthCode(codeTree: Tree, lengths: array<nat>, num: nat, ghost lens: seq<nat>,
                          ghost c: LengthCode, ghost clens: seq<nat>, ghost tail: seq<bit>) returns (num': nat)
      requires reader.Valid() && codeTree.Built(clens) && Kraft(clens)
      requires num <= lengths.Length && lengths[..num] == lens
      requires c.InRange() && HasCode(clens, c.Symbol()) && (c.Again? ==> lens != [])
      requires lengths != codeTree.table && lengths != codeTree.trans
      requires |c.Expand(lens)| <= lengths.Length
      requires reader.Remaining() == c.Encode(clens) + tail
      modifies reader, lengths
      ensures reader.Valid() && reader.Remaining() == tail
      ensures num' == |c.Expand(lens)| && lengths[..num'] == c.Expand(lens)
    {
      SmallPowers();
      hide Pow2, LsbBits, Tree.Built, Kraft, CodeBits, Repeated;
      assert c.Encode(clens) + tail == CodeBits(clens, c.Symbol()) + (c.Extra() + tail);
      var sym := reader.DecodeSymbol(codeTree, clens, c.Symbol(), c.Extra() + tail);
      if sym == 16 {
        num' := RepeatLength(lengths, num, lengths[num - 1], 2, 3, lens, c.extra, tail);
      } else if sym == 17 {
        num' := RepeatLength(lengths, num, 0, 3, 3, lens, c.extra, tail);
      } else if sym == 18 {
        num' := RepeatLength(lengths, num, 0, 7, 11, lens, c.extra, tail);
      } else {
        assert c.Extra() + tail == tail;
        lengths[num] := sym;
        num' := num + 1;
        assert lengths[..num'] == lens + [sym];
      }
    }

    /** The run-length loop of tinf_decode_trees. */
    method ReadLengths(codeTree: Tree, lengths: array<nat>, total: nat, ghost codes: seq<LengthCode>,
                       ghost clens: seq<nat>, ghost rest: seq<bit>)
      requires reader.Valid() && codeTree.Built(clens) && Kraft(clens)
      requires lengths != codeTree.table && lengths != codeTree.trans
      requires LengthCodesOk([], codes, clens) && |ExpandLengths([], codes, clens)| == total <= lengths.Length
      requires reader.Remaining() == EncodeLengths(codes, clens) + rest
      modifies reader, lengths
      ensures reader.Valid() && reader.Remaining() == rest
      ensures lengths[..total] == ExpandLengths([], codes, clens)
    {
      hide Tree.Built, Kraft, CodeBits, LengthCode.Expand, LengthCode.Encode;
      hide LengthCodesOk, ExpandLengths, EncodeLengths;
      ghost var cs := codes;
      var num: nat := 0;
      while num < total
        invariant num <= total && codeTree.Built(clens)
        invariant LengthCodesOk(lengths[..num], cs, clens)
        invariant ExpandLengths(lengths[..num], cs, clens) == ExpandLengths([], codes, clens)
        invariant reader.Valid() && reader.Remaining() == EncodeLengths(cs, clens) + rest
        decreases |cs|
      {
        NextLengthCode(lengths[..num], cs, clens, rest);
        num := ReadLengthCode(codeTree, lengths, num, lengths[..num], cs[0], clens,
                              EncodeLengths(cs[1..], clens) + rest);
        cs := cs[1..];
        NextLengthCode(lengths[..num], cs, clens, rest);
      }
      NextLengthCode(lengths[..num], cs, clens, rest);
    }

    /** Reads the code length code and builds its tree. */
    method ReadCodeTree(lengths: array<nat>, hclen: nat, ghost clens: seq<nat>, ghost rest: seq<bit>)
      returns (codeTree: Tree)
      requires reader.Valid() && lengths.Length >= 19 && hclen <= 19
      requires |clens| == 19 && (forall i :: 0 <= i < 19 ==> clens[i] < 8)
      requires forall i :: hclen <= i < 19 ==> clens[ClcOrder(i)] == 0
      requires reader.Remaining() == EncodeClens(clens, 0, hclen) + rest
      modifies reader, lengths
      ensures reader.Valid() && reader.Remaining() == rest
      ensures fresh(codeTree.table) && fresh(codeTree.trans) && codeTree.Built(clens)
    {
      hide LsbBits, EncodeClens, Tree.Built, ClcOrder;
      ReadClens(lengths, hclen, clens, rest);
      assert lengths[0..0 + 19] == clens;
      codeTree := new Tree();
      codeTree.Build(lengths, 0, 19);
    }

    /** The three counts that open a dynamic block. */
    method ReadCounts(ghost h: Header, ghost tail: seq<bit>) returns (hlit: nat, hdist: nat, hclen: nat)
      requires reader.Valid() && h.hlit < 32 && h.hdist < 32 && h.hclen < 16
      requires reader.Remaining() == LsbBits(h.hlit, 5) + (LsbBits(h.hdist, 5) + (LsbBits(h.hclen, 4) + tail))
      modifies reader
      ensures reader.Valid() && reader.Remaining() == tail
      ensures hlit == h.NumLit() && hdist == h.NumDist() && hclen == h.hclen + 4
    {
      SmallPowers();
      hide Pow2, LsbBits;
      hlit := reader.ReadBits(5, 257, h.hlit, LsbBits(h.hdist, 5) + (LsbBits(h.hclen, 4) + tail));
      hdist := reader.ReadBits(5, 1, h.hdist, LsbBits(h.hclen, 4) + tail);
      hclen := reader.ReadBits(4, 4, h.hclen, tail);
    }

    /** The reading half of tinf_decode_trees. */
    method ReadTreeLengths(ghost h: Header, ghost rest: seq<bit>)
      returns (lengths: array<nat>, hlit: nat, hdist: nat)
      requires reader.Valid() && h.Valid()
      requires reader.Remaining() == h.Encode() + rest
      modifies reader
      ensures reader.Valid() && reader.Remaining() == rest
      ensures fresh(lengths) && hlit == h.NumLit() && hdist == h.NumDist()
      ensures lengths.Length == 320 && lengths[..hlit + hdist] == h.Lens()
    {
      HeaderBits(h, rest);
      hide Pow2, LsbBits, CodeBits, EncodeClens, EncodeLengths, Kraft, LengthCodesOk, ExpandLengths;
      hide Tree.Built, Tree.Shape, ClcOrder, Header.LitLens, Header.DistLens, Header.Encode;
      ghost var lenBits := EncodeLengths(h.codes, h.clens) + rest;
      var hclen;
      hlit, hdist, hclen := ReadCounts(h, EncodeClens(h.clens, 0, h.hclen + 4) + lenBits);
      lengths := new nat[288 + 32];
      var codeTree := ReadCodeTree(lengths, hclen, h.clens, lenBits);
      ReadLengths(codeTree, lengths, hlit + hdist, h.codes, h.clens, rest);
    }

    /** tinf_decode_trees */
    method DecodeTrees(ghost h: Header, ghost rest: seq<bit>)
      requires Valid() && h.Valid()
      requires reader.Remaining() == h.Encode() + rest
      modifies reader, ltree.table, ltree.trans, dtree.table, dtree.trans
      ensures Valid() && reader.Remaining() == rest
      ensures CodesReady(ltree, dtree, h.LitLens(), h.DistLens())
    {
      var lengths, hlit, hdist := ReadTreeLengths(h, rest);
      hide Kraft, LengthCodesOk, ExpandLengths, Tree.Built, StaticTables.Ready, DistinctTables;
      TreeLengths(h, lengths[..hlit + hdist]);
      hide Header.Valid, Header.Lens, Header.LitLens, Header.DistLens;
      BuildTrees(lengths, hlit, hdist, h.LitLens(), h.DistLens());
    }

    /** The last two lines of tinf_decode_trees. */
    method BuildTrees(lengths: array<nat>, hlit: nat, hdist: nat, ghost ll: seq<nat>, ghost dl: seq<nat>)
      requires Valid() && hlit + hdist <= lengths.Length
      requires {lengths} !! {ltree.table, ltree.trans, dtree.table, dtree.trans}
      requires lengths[..hlit + hdist][..hlit] == ll && lengths[..hlit + hdist][hlit..] == dl
      requires Lengths(ll) && Lengths(dl) && Kraft(ll) && Kraft(dl)
      modifies ltree.table, ltree.trans, dtree.table, dtree.trans
      ensures Valid() && CodesReady(ltree, dtree, ll, dl)
    {
      hide Kraft, Tree.Built, StaticTables.Ready;
      assert lengths[0..0 + hlit] == ll && lengths[hlit..hlit + hdist] == dl;
      ltree.Build(lengths, 0, hlit);
      dtree.Build(lengths, hlit, hdist);
    }

    /** The switch of tinf_uncompress: inflate the first block of `s`, whose header was just read. */
    method InflateBlock(btype: nat, ghost s: Stream, ghost at: nat, ghost tail: seq<bit>) returns (res: Status)
      requires Valid() && destLen == pos
      requires s.Valid(at, Out()) && (at + 3) % 8 == Position() % 8 && btype == s.Type()
      requires reader.Remaining() == s.Body() + tail
      requires |s.Expand(Out())| <= dest.Length
      modifies this`pos, this`destLen, reader, dest, ltree.table, ltree.trans, dtree.table, dtree.trans
      ensures Valid() && destLen == pos
      ensures res.OK? <==> s.Last? || s.More?
      ensures res.OK? ==> reader.Remaining() == s.After() + tail && Out() == old(s.block.Expand(Out()))
      ensures res.DATA_ERROR? ==> Out() == old(Out())
    {
      hide StaticTables.Ready, DistinctTables, Aligns, Tree.Shape, Tree.Built, Kraft, Header.Valid, AllHaveCodes;
      hide TokensFit, ExpandTokens, EncodeTokens, StoredBits, BytesBits, Header.Encode;
      hide Stream.Valid, Stream.Expand, Stream.Body, Stream.After, Block.Valid, Block.Encode, Block.Expand;
      hide Header.LitLens, Header.DistLens, CodesReady;
      FirstBlock(s, at, Out(), tail);
      if btype == 0 {
        ghost var pad, len, nlen, data := StoredParts(s, at, Position(), Out(), tail);
        res := InflateUncompressed(pad, len, nlen, data, s.After() + tail);
      } else if btype == 1 {
        InflateFixed(s.block.toks, s.After() + tail);
        res := OK;
      } else if btype == 2 {
        InflateDynamic(s.block.header, s.block.toks, s.After() + tail);
        res := OK;
      } else {
        res := DATA_ERROR;
      }
    }

    /** tinf_inflate_fixed_block */
    method InflateFixed(ghost toks: seq<Token>, ghost rest: seq<bit>)
      requires Valid() && AllHaveCodes(toks, FIXED_LIT, FIXED_DIST)
      requires reader.Remaining() == EncodeTokens(toks, FIXED_LIT, FIXED_DIST) + rest
      requires TokensFit(Out(), toks) && |ExpandTokens(Out(), toks)| <= dest.Length
      modifies this`pos, this`destLen, reader, dest
      ensures Valid() && reader.Remaining() == rest
      ensures Out() == old(ExpandTokens(Out(), toks))
      ensures destLen == old(destLen) + pos - old(pos)
    {
      FixedKraft();
      InflateBlockData(tables.sltree, tables.sdtree, FIXED_LIT, FIXED_DIST, toks, rest);
    }

    /** tinf_inflate_dynamic_block */
    method InflateDynamic(ghost h: Header, ghost toks: seq<Token>, ghost rest: seq<bit>)
      requires Valid() && h.Valid() && AllHaveCodes(toks, h.LitLens(), h.DistLens())
      requires reader.Remaining() == h.Encode() + (EncodeTokens(toks, h.LitLens(), h.DistLens()) + rest)
      requires TokensFit(Out(), toks) && |ExpandTokens(Out(), toks)| <= dest.Length
      modifies this`pos, this`destLen, reader, dest, ltree.table, ltree.trans, dtree.table, dtree.trans
      ensures Valid() && reader.Remaining() == rest
      ensures Out() == old(ExpandTokens(Out(), toks))
      ensures destLen == old(destLen) + pos - old(pos)
    {
      hide StaticTables.Ready, DistinctTables, Header.Valid, Header.Encode, AllHaveCodes, CodesReady;
      hide TokensFit, ExpandTokens, EncodeTokens, Header.LitLens, Header.DistLens;
      DecodeTrees(h, EncodeTokens(toks, h.LitLens(), h.DistLens()) + rest);
      InflateBlockData(ltree, dtree, h.LitLens(), h.DistLens(), toks, rest);
    }

    /** One turn of the loop in tinf_uncompress: header, then block. */
    method InflateNext(ghost s: Stream, ghost at: nat, ghost tail: seq<bit>) returns (res: Status, bfinal: bit)
      requires Valid() && destLen == pos
      requires s.Valid(at, Out()) && at % 8 == Position() % 8
      requires reader.Remaining() == s.Encode() + tail
      requires |s.Expand(Out())| <= dest.Length
      modifies this`pos, this`destLen, reader, dest, ltree.table, ltree.trans, dtree.table, dtree.trans
      ensures Valid() && destLen == pos
      ensures res.OK? <==> s.Last? || s.More?
      ensures res.OK? ==> reader.Remaining() == s.After() + tail && Out() == old(s.block.Expand(Out()))
      ensures res.OK? ==> bfinal == s.FinalBit() && (at + 3 + |s.block.Encode()|) % 8 == Position() % 8
      ensures res.DATA_ERROR? ==> Out() == old(Out())
    {
      hide StaticTables.Ready, DistinctTables, LsbBits, Stream.Body, Stream.Valid, Stream.Expand, Block.Encode;
      HeaderSplits(s, tail);
      hide Stream.Encode, Pow2;
      ghost var p, total := Position(), |s.Encode()|;
      assert reader.Remaining()[1..] == LsbBits(s.Type(), 2) + (s.Body() + tail);
      bfinal := reader.GetBit();
      var btype := reader.ReadBits(2, 0, s.Type(), s.Body() + tail);
      assert Position() == p + 3;
      SameRemainder(at, p, 3);
      res := InflateBlock(btype, s, at, tail);
      if res.OK? {
        assert Position() == p + total - |s.After()|;
        SameRemainder(at, p, 3 + |s.block.Encode()|);
      }
    }
  }

  lemma CopyStep(out: seq<byte>, len: nat, dist: nat)
    requires 0 < dist <= |out| && 0 < len
    ensures CopyMatch(out, len, dist) == CopyMatch(out + [out[|out| - dist]], len - 1, dist)
  {
  }

  lemma SameRemainder(a: nat, b: nat, k: nat)
    requires a % 8 == b % 8
    ensures (a + k) % 8 == (b + k) % 8
  {
  }

  lemma HeaderSplits(s: Stream, tail: seq<bit>)
    ensures s.Encode() + tail == [s.FinalBit()] + (LsbBits(s.Type(), 2) + (s.Body() + tail))
    ensures s.Type() < Pow2(2)
    ensures s.Last? || s.More? ==> |s.Encode()| == 3 + |s.block.Encode()| + |s.After()|
  {
    SmallPowers();
    hide LsbBits, Block.Encode;
  }

  /** tinf_uncompress, reading from source[from..]: for every stream of blocks whose encoding the source
      holds, the output is what the blocks stand for. */
  method Uncompress(dest: array<byte>, source: array<byte>, from: nat, tables: StaticTables,
                    ghost st: Stream, ghost tail: seq<bit>) returns (res: Status, destLen: nat)
    requires from <= source.Length && source != dest && tables.Ready()
    requires st.Valid(0, []) && BytesBits(source[from..]) == st.Encode() + tail
    requires |st.Expand([])| <= dest.Length
    modifies dest
    ensures res == if st.Accepted() then OK else DATA_ERROR
    ensures destLen == |st.Expand([])| && dest[..destLen] == st.Expand([])
  {
    hide BytesBits, StaticTables.Ready, Inflater.DistinctTables, Tree.Shape, Tree.Built, Kraft;
    hide Stream.Encode, Stream.Valid, Stream.Expand, Stream.Accepted, Block.Expand, Block.Encode;
    var d := new Inflater(source, from, dest, tables);
    ghost var s, at: nat := st, 0;
    while true
      invariant fresh(d) && fresh(d.reader) && d.dest == dest
      invariant fresh(d.ltree.table) && fresh(d.ltree.trans) && fresh(d.dtree.table) && fresh(d.dtree.trans)
      invariant d.Valid() && d.destLen == d.pos
      invariant s.Valid(at, d.Out()) && s.Expand(d.Out()) == st.Expand([])
      invariant at % 8 == d.Position() % 8
      invariant d.reader.Remaining() == s.Encode() + tail
      invariant s.Accepted() == st.Accepted()
      decreases s
    {
      StreamStep(s, at, d.Out());
      var bfinal;
      res, bfinal := d.InflateNext(s, at, tail);
      if res != OK {
        return DATA_ERROR, d.destLen;
      }
      if bfinal != 0 {
        return OK, d.destLen;
      }
      at := at + 3 + |s.block.Encode()|;
      s := s.rest;
    }
  }

  /** What is left of a stream behind its first block. */
  lemma StreamStep(s: Stream, at: nat, out: seq<byte>)
    requires s.Valid(at, out)
    ensures s.Last? || s.More? ==> s.FinalBit() == (if s.Last? then 1 else 0)
    ensures s.Accepted() == (s.Last? || (s.More? && s.rest.Accepted()))
    ensures s.Last? ==> s.Expand(out) == s.block.Expand(out)
    ensures s.More? ==>
      && s.rest.Valid(at + 3 + |s.block.Encode()|, s.block.Expand(out))
      && s.Expand(out) == s.rest.Expand(s.block.Expand(out))
    ensures s.Reserved? || s.BadStored? ==> s.Expand(out) == out
  {
    hide Block.Valid, Block.Encode, Block.Expand;
  }

  /** What the first block of a stream asks of the decoder. */
  lemma FirstBlock(s: Stream, at: nat, out: seq<byte>, tail: seq<bit>)
    requires s.Valid(at, out)
    ensures s.Last? || s.More? ==>
      && s.block.Valid(at + 3, out) && s.Type() == s.block.Type()
      && |s.block.Expand(out)| <= |s.Expand(out)|
      && (!s.block.Stored? ==>
            && TokensFit(out, s.block.toks)
            && s.block.Expand(out) == ExpandTokens(out, s.block.toks))
      && (s.block.Fixed? ==>
            && AllHaveCodes(s.block.toks, FIXED_LIT, FIXED_DIST)
            && s.Body() + tail == EncodeTokens(s.block.toks, FIXED_LIT, FIXED_DIST) + (s.After() + tail))
      && (s.block.Dynamic? ==>
            var h, toks := s.block.header, s.block.toks;
            && h.Valid() && AllHaveCodes(toks, h.LitLens(), h.DistLens())
            && s.Body() + tail
               == h.Encode() + (EncodeTokens(toks, h.LitLens(), h.DistLens()) + (s.After() + tail)))
  {
    hide Header.Encode, Header.Valid, EncodeTokens, ExpandTokens, TokensFit, AllHaveCodes, StoredBits;
    hide Header.LitLens, Header.DistLens, Stream.Encode;
    if s.More? { StreamGrows(s.rest, s.block.Expand(out)); }
  }

  lemma StoredParts(s: Stream, at: nat, p: nat, out: seq<byte>, tail: seq<bit>)
    returns (pad: seq<bit>, len: nat, nlen: nat, data: seq<byte>)
    requires s.Valid(at, out) && s.Type() == 0 && (at + 3) % 8 == p % 8
    ensures Aligns(p, pad) && len < 65536 && nlen < 65536
    ensures s.Body() + tail == pad + StoredBits(len, nlen, data) + (s.After() + tail)
    ensures len + nlen == 65535 <==> s.Last? || s.More?
    ensures len + nlen == 65535 ==>
      s.block.Stored? && data == s.block.data && |data| == len && s.block.Expand(out) == out + data
  {
    hide StoredBits, EncodeTokens, ExpandTokens, TokensFit, AllHaveCodes, Header.Encode, Header.Valid, Stream.Encode;
    if s.BadStored? {
      pad, len, nlen, data := s.pad, s.len, s.nlen, [];
    } else {
      pad, data := s.block.pad, s.block.data;
      len, nlen := |data|, 65535 - |data|;
    }
    SameRemainder(at + 3, p, |pad|);
  }

  lemma {:induction false} StreamGrows(s: Stream, out: seq<byte>)
    ensures |out| <= |s.Expand(out)|
    decreases s
  {
    match s
    case Last(b) => BlockGrows(b, out);
    case More(b, rest) =>
      BlockGrows(b, out);
      StreamGrows(rest, b.Expand(out));
    case _ =>
  }

  lemma BlockGrows(b: Block, out: seq<byte>)
    ensures |out| <= |b.Expand(out)|
  {
    if !b.Stored? && TokensFit(out, b.toks) { ExpandGrows(out, b.toks); }
  }

  lemma TreeLengths(h: Header, lens: seq<nat>)
    requires h.Valid() && lens == h.Lens()
    ensures lens[..h.NumLit()] == h.LitLens() && lens[h.NumLit()..] == h.DistLens()
    ensures Lengths(h.LitLens()) && Lengths(h.DistLens()) && Kraft(h.LitLens()) && Kraft(h.DistLens())
  {
    hide Kraft;
    LengthsBounded([], h.codes, h.clens);
  }

  lemma HeaderBits(h: Header, rest: seq<bit>)
    ensures h.Encode() + rest
      == LsbBits(h.hlit, 5) + (LsbBits(h.hdist, 5) + (LsbBits(h.hclen, 4)
       + (EncodeClens(h.clens, 0, h.hclen + 4) + (EncodeLengths(h.codes, h.clens) + rest))))
  {
    hide LsbBits, EncodeClens, EncodeLengths;
  }

  lemma {:induction false} LengthsBounded(lens: seq<nat>, cs: seq<LengthCode>, clens: seq<nat>)
    requires LengthCodesOk(lens, cs, clens)
    requires forall i :: 0 <= i < |lens| ==> lens[i] <= MAX_BITS
    ensures forall i :: 0 <= i < |ExpandLengths(lens, cs, clens)| ==> ExpandLengths(lens, cs, clens)[i] <= MAX_BITS
    decreases cs
  {
    if cs != [] { LengthsBounded(cs[0].Expand(lens), cs[1..], clens); }
  }

  lemma NextLengthCode(lens: seq<nat>, cs: seq<LengthCode>, clens: seq<nat>, rest: seq<bit>)
    requires LengthCodesOk(lens, cs, clens)
    ensures |lens| <= |ExpandLengths(lens, cs, clens)|
    ensures cs == [] ==> ExpandLengths(lens, cs, clens) == lens && EncodeLengths(cs, clens) + rest == rest
    ensures cs != [] ==>
      && cs[0].InRange() && HasCode(clens, cs[0].Symbol()) && (cs[0].Again? ==> lens != [])
      && LengthCodesOk(cs[0].Expand(lens), cs[1..], clens)
      && ExpandLengths(cs[0].Expand(lens), cs[1..], clens) == ExpandLengths(lens, cs, clens)
      && |lens| < |cs[0].Expand(lens)| <= |ExpandLengths(lens, cs, clens)|
      && EncodeLengths(cs, clens) + rest == cs[0].Encode(clens) + (EncodeLengths(cs[1..], clens) + rest)
  {
    hide LengthCode.Encode;
    LengthsGrow(lens, cs, clens);
    if cs != [] {
      ExpandLonger(cs[0], lens);
      hide LengthCode.Expand;
      LengthsGrow(cs[0].Expand(lens), cs[1..], clens);
    }
  }

  lemma ExpandLonger(c: LengthCode, lens: seq<nat>)
    requires c.Again? ==> lens != []
    ensures |lens| < |c.Expand(lens)|
  {
  }

  lemma {:induction false} LengthsGrow(lens: seq<nat>, cs: seq<LengthCode>, clens: seq<nat>)
    requires LengthCodesOk(lens, cs, clens)
    ensures |lens| <= |ExpandLengths(lens, cs, clens)|
    decreases cs
  {
    if cs != [] {
      ExpandLonger(cs[0], lens);
      hide LengthCode.Expand;
      LengthsGrow(cs[0].Expand(lens), cs[1..], clens);
    }
  }

  lemma NextClen(clens: seq<nat>, i: nat, hclen: nat, rest: seq<bit>)
    requires i < hclen <= 19 && |clens| == 19
    ensures EncodeClens(clens, i, hclen) + rest
         == LsbBits(clens[ClcOrder(i)], 3) + (EncodeClens(clens, i + 1, hclen) + rest)
  {
    hide LsbBits, ClcOrder;
  }

  lemma ClcOrderInjective(i: nat)
    requires i < 19
    ensures forall j :: 0 <= j < 19 && j != i ==> ClcOrder(j) != ClcOrder(i)
  {
  }

  lemma ClcOrderOnto(k: nat) returns (j: nat)
    requires k < 19
    ensures j < 19 && ClcOrder(j) == k
  {
    j := At([3, 17, 15, 13, 11, 9, 7, 5, 4, 6, 8, 10, 12, 14, 16, 18, 0, 1, 2], k);
  }

  function Word16(lo: byte, hi: byte): nat {
    256 * (hi as nat) + lo as nat
  }

  lemma PadIsTag(pos: nat, bitcount: nat, pad: seq<bit>)
    requires bitcount < 8 && 8 * pos >= bitcount && Aligns(8 * pos - bitcount, pad)
    ensures |pad| == bitcount
  {
  }

  lemma NoBits(tag: nat)
    ensures LsbBits(tag, 0) == []
  {
  }

  lemma StoredBitsAreBytes(len: nat, nlen: nat, data: seq<byte>) returns (bytes: seq<byte>)
    requires len < 65536 && nlen < 65536
    ensures BytesBits(bytes) == StoredBits(len, nlen, data)
    ensures |bytes| == 4 + |data| && bytes[4..] == data
    ensures Word16(bytes[0], bytes[1]) == len && Word16(bytes[2], bytes[3]) == nlen
  {
    hide LsbBits, BytesBits;
    var a, b: seq<byte> := [len % 256, len / 256], [nlen % 256, nlen / 256];
    LsbBits16(len);
    LsbBits16(nlen);
    BytesBitsConcat(a + b, data);
    BytesBitsConcat(a, b);
    bytes := a + b + data;
    assert BytesBits(a) + BytesBits(b) + BytesBits(data) == BytesBits(a) + (BytesBits(b) + BytesBits(data));
  }

  /** At a byte boundary the stored block's fields are plain bytes. */
  lemma StoredBytes(src: seq<byte>, tag: nat, bitcount: nat, pad: seq<bit>,
                    len: nat, nlen: nat, data: seq<byte>, rest: seq<bit>)
    requires bitcount < 8 && |pad| == bitcount && len < 65536 && nlen < 65536
    requires LsbBits(tag, bitcount) + BytesBits(src) == pad + StoredBits(len, nlen, data) + rest
    ensures |src| >= 4 + |data|
    ensures Word16(src[0], src[1]) == len && Word16(src[2], src[3]) == nlen
    ensures src[4..4 + |data|] == data && BytesBits(src[4 + |data|..]) == rest
  {
    hide LsbBits, BytesBits, StoredBits;
    var bytes := StoredBitsAreBytes(len, nlen, data);
    var s := LsbBits(tag, bitcount) + BytesBits(src);
    assert s[bitcount..] == BytesBits(src);
    assert (pad + StoredBits(len, nlen, data) + rest)[bitcount..] == BytesBits(bytes) + rest;
    BytesBitsPrefix(src, bytes, rest);
    assert src[..|bytes|][4..] == src[4..4 + |data|];
    assert src[0] == bytes[0] && src[1] == bytes[1] && src[2] == bytes[2] && src[3] == bytes[3];
  }

  /** The two trees hold two usable codes. */
  ghost predicate CodesReady(lt: Tree, dt: Tree, ll: seq<nat>, dl: seq<nat>)
    reads lt.table, lt.trans, dt.table, dt.trans
  {
    lt.Built(ll) && dt.Built(dl) && Kraft(ll) && Kraft(dl)
  }

  /** What follows the length code of a match. */
  function MatchTail(t: Token, dl: seq<nat>, tail: seq<bit>): seq<bit>
    requires t.Match?
  {
    LsbBits(t.lextra, LBits(t.lcode))
    + (CodeBits(dl, t.dcode) + (LsbBits(t.dextra, DBits(t.dcode)) + tail))
  }

  /** Which symbol comes next, and what follows its code. */
  lemma NextSymbol(ts: seq<Token>, ll: seq<nat>, dl: seq<nat>, rest: seq<bit>) returns (sym: nat, rest': seq<bit>)
    requires AllHaveCodes(ts, ll, dl)
    ensures HasCode(ll, sym)
    ensures EncodeTokens(ts, ll, dl) + rest == CodeBits(ll, sym) + rest'
    ensures ts == [] ==> sym == END_OF_BLOCK && rest' == rest
    ensures ts != [] ==>
      var tail := EncodeTokens(ts[1..], ll, dl) + rest;
      match ts[0]
      case Literal(b) => sym == b && rest' == tail
      case Match(lc, _, _, _) => sym == 257 + lc && rest' == MatchTail(ts[0], dl, tail)
  {
    hide Pow2, Count, FirstCode, MsbBits, LsbBits, Code, LBits, DBits;
    if ts == [] {
      sym, rest' := END_OF_BLOCK, rest;
    } else {
      var tail := EncodeTokens(ts[1..], ll, dl) + rest;
      match ts[0]
      case Literal(b) =>
        sym, rest' := b, tail;
      case Match(lc, le, dc, de) =>
        sym, rest' := 257 + lc, MatchTail(ts[0], dl, tail);
    }
  }

  lemma FirstToken(out: seq<byte>, ts: seq<Token>, ll: seq<nat>, dl: seq<nat>)
    requires AllHaveCodes(ts, ll, dl) && TokensFit(out, ts)
    ensures ts == [] ==> ExpandTokens(out, ts) == out
    ensures ts != [] ==>
      && ts[0].HasCodes(ll, dl) && ts[0].Fits(out)
      && AllHaveCodes(ts[1..], ll, dl) && TokensFit(ts[0].Expand(out), ts[1..])
      && ExpandTokens(ts[0].Expand(out), ts[1..]) == ExpandTokens(out, ts)
      && |ts[0].Expand(out)| <= |ExpandTokens(out, ts)|
  {
    if ts != [] { ExpandGrows(ts[0].Expand(out), ts[1..]); }
  }

  lemma {:induction false} ExpandGrows(out: seq<byte>, toks: seq<Token>)
    requires TokensFit(out, toks)
    ensures |out| <= |ExpandTokens(out, toks)|
    decreases toks
  {
    if toks != [] { ExpandGrows(toks[0].Expand(out), toks[1..]); }
  }
}

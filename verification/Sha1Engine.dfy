/** SHA1Engine on a little-endian machine: a streaming digest over an in-place block buffer. */
module Sha1Engine {
  import opened Arithmetic
  import opened Common
  import opened Sha1Spec

  // ----- words as they lie in memory -----

  // The octets of a word stored least significant octet first.

  function Octet0(w: word): octet { (w & 0xFF) as octet }
  function Octet1(w: word): octet { ((w >> 8) & 0xFF) as octet }
  function Octet2(w: word): octet { ((w >> 16) & 0xFF) as octet }
  function Octet3(w: word): octet { ((w >> 24) & 0xFF) as octet }

  function Set0(w: word, b: octet): word { (w & 0xFFFFFF00) | (b as word) }
  function Set1(w: word, b: octet): word { (w & 0xFFFF00FF) | ((b as word) << 8) }
  function Set2(w: word, b: octet): word { (w & 0xFF00FFFF) | ((b as word) << 16) }
  function Set3(w: word, b: octet): word { (w & 0x00FFFFFF) | ((b as word) << 24) }

  function OctetOf(w: word, k: nat): octet {
    if k == 0 then Octet0(w) else if k == 1 then Octet1(w) else if k == 2 then Octet2(w) else Octet3(w)
  }

  function SetOctet(w: word, k: nat, b: octet): word {
    if k == 0 then Set0(w, b) else if k == 1 then Set1(w, b) else if k == 2 then Set2(w, b) else Set3(w, b)
  }

  lemma Set0Works(w: word, b: octet)
    ensures Octet0(Set0(w, b)) == b
    ensures Octet1(Set0(w, b)) == Octet1(w)
    ensures Octet2(Set0(w, b)) == Octet2(w)
    ensures Octet3(Set0(w, b)) == Octet3(w)
  {
  }

  lemma Set1Works(w: word, b: octet)
    ensures Octet0(Set1(w, b)) == Octet0(w)
    ensures Octet1(Set1(w, b)) == b
    ensures Octet2(Set1(w, b)) == Octet2(w)
    ensures Octet3(Set1(w, b)) == Octet3(w)
  {
  }

  lemma Set2Works(w: word, b: octet)
    ensures Octet0(Set2(w, b)) == Octet0(w)
    ensures Octet1(Set2(w, b)) == Octet1(w)
    ensures Octet2(Set2(w, b)) == b
    ensures Octet3(Set2(w, b)) == Octet3(w)
  {
  }

  lemma Set3Works(w: word, b: octet)
    ensures Octet0(Set3(w, b)) == Octet0(w)
    ensures Octet1(Set3(w, b)) == Octet1(w)
    ensures Octet2(Set3(w, b)) == Octet2(w)
    ensures Octet3(Set3(w, b)) == b
  {
  }

  lemma SetOctetWorks(w: word, k: nat, b: octet, j: nat)
    requires k < 4 && j < 4
    ensures OctetOf(SetOctet(w, k, b), j) == if j == k then b else OctetOf(w, j)
  {
    hide Octet0, Octet1, Octet2, Octet3, Set0, Set1, Set2, Set3;
    match k
    case 0 => Set0Works(w, b);
    case 1 => Set1Works(w, b);
    case 2 => Set2Works(w, b);
    case _ => Set3Works(w, b);
  }

  /** byteReverse's per-word expression: swap the halves, then the octets within each half. */
  function Reverse(w: word): word {
    var v := (w << 16) | (w >> 16);
    ((v & 0xFF00FF00) >> 8) | ((v & 0x00FF00FF) << 8)
  }

  lemma ReverseIsBig(w: word)
    ensures Reverse(w) == Big(OctetOf(w, 0), OctetOf(w, 1), OctetOf(w, 2), OctetOf(w, 3))
  {
  }

  /** The memory image of a word array. */
  function Octets(words: seq<word>): (s: seq<octet>)
    ensures |s| == 4 * |words|
  {
    seq(4 * |words|, i requires 0 <= i < 4 * |words| => OctetOf(words[i / 4], i % 4))
  }

  function Reversed(words: seq<word>, n: nat): (r: seq<word>)
    ensures |r| == |words|
  {
    seq(|words|, i requires 0 <= i < |words| => if i < n then Reverse(words[i]) else words[i])
  }

  /** Reversing every word turns the memory image into FIPS words. */
  lemma ReversedPrefix(words: seq<word>, n: nat, s: seq<octet>)
    requires n <= |words| && s == Octets(words)[..4 * n]
    ensures Reversed(words, |words|)[..n] == Words(s)
  {
    hide OctetOf, Reverse, Big, Words;
    forall i: nat | i < n ensures Reverse(words[i]) == Words(s)[i] {
      WordAt(s, i);
      ReverseIsBig(words[i]);
      assert s[4 * i] == OctetOf(words[i], 0) && s[4 * i + 1] == OctetOf(words[i], 1);
      assert s[4 * i + 2] == OctetOf(words[i], 2) && s[4 * i + 3] == OctetOf(words[i], 3);
    }
  }

  /** The 64-bit count of bits, kept in two 32-bit halves. */
  ghost predicate Counts(hi: nat, lo: nat, n: nat) {
    hi < TWO32 && lo < TWO32 && hi * TWO32 + lo == 8 * n % (TWO32 * TWO32)
  }

  lemma CountsAdd(hi: nat, lo: nat, n: nat, c: nat, lo': nat, hi': nat)
    requires Counts(hi, lo, n) && c < TWO32
    requires lo' == (lo + 8 * c % TWO32) % TWO32
    requires hi' == if lo' < lo then (hi + 1) % TWO32 else hi
    ensures Counts((hi' + c / 0x2000_0000) % TWO32, lo', n + c)
  {
    var q, r := c / 0x2000_0000, 8 * c % TWO32;
    var carry := if lo' < lo then 1 else 0;
    var m' := (hi + carry) / TWO32;
    var h := hi' + q;
    var k, m := 8 * n / (TWO32 * TWO32), h / TWO32 + m';
    CountParts(hi, lo, n);
    hide Counts;
    ShiftedParts(c);
    Carried(lo, r, lo');
    Carried(hi, carry, (hi + carry) % TWO32);
    HalvesAdd(n, c, k, hi, lo, q, r, carry, lo', m', hi', m, h % TWO32);
    DivUnique(8 * (n + c), TWO32 * TWO32, k + m, h % TWO32 * TWO32 + lo');
    IsCount(h % TWO32, lo', n + c);
  }

  lemma CountParts(hi: nat, lo: nat, n: nat)
    requires Counts(hi, lo, n)
    ensures 8 * n == 8 * n / (TWO32 * TWO32) * (TWO32 * TWO32) + hi * TWO32 + lo && hi < TWO32 && lo < TWO32
  {
  }

  lemma ShiftedParts(c: nat)
    ensures 8 * c == c / 0x2000_0000 * TWO32 + 8 * c % TWO32
  {
  }

  lemma Carried(a: nat, b: nat, s: nat)
    requires a < TWO32 && b < TWO32 && s == (a + b) % TWO32
    ensures a + b == (if s < a then 1 else 0) * TWO32 + s && (a + b) / TWO32 == if s < a then 1 else 0
  {
  }

  lemma IsCount(hi: nat, lo: nat, n: nat)
    requires hi < TWO32 && lo < TWO32 && 8 * n % (TWO32 * TWO32) == hi * TWO32 + lo
    ensures Counts(hi, lo, n)
  {
  }

  lemma HalvesAdd(n: nat, c: nat, k: nat, hi: nat, lo: nat, q: nat, r: nat, carry: nat, lo': nat, m': nat, hi': nat,
                  m: nat, h: nat)
    requires 8 * c == q * TWO32 + r && lo + r == carry * TWO32 + lo' && hi + carry == m' * TWO32 + hi'
    requires hi' + q == (m - m') * TWO32 + h && 8 * n == k * (TWO32 * TWO32) + hi * TWO32 + lo
    ensures 8 * (n + c) == (k + m) * (TWO32 * TWO32) + (h * TWO32 + lo')
  {
  }

  lemma CountsWords(hi: nat, lo: nat, n: nat)
    requires Counts(hi, lo, n)
    ensures hi == 8 * n / TWO32 % TWO32 && lo == 8 * n % TWO32
    ensures lo / 8 % 64 == n % 64
  {
    var k := 8 * n / (TWO32 * TWO32);
    var x := k * TWO32 + hi;
    assert 8 * n == k * (TWO32 * TWO32) + hi * TWO32 + lo == x * TWO32 + lo;
    DivUnique(8 * n, TWO32, x, lo);
    DivUnique(x, TWO32, k, hi);
    LowBits(n, x, lo);
  }

  /** The octets in the last block are found in the low half of the count. */
  lemma LowBits(n: nat, x: nat, lo: nat)
    requires 8 * n == x * TWO32 + lo && lo < TWO32
    ensures lo / 8 % 64 == n % 64
  {
    var a := lo / 8;
    assert n == 64 * (x * 0x80_0000 + a / 64) + a % 64;
    DivUnique(n, 64, x * 0x80_0000 + a / 64, a % 64);
  }

  lemma NothingFolded()
    ensures Words([]) == [] && Fold(H0, []) == H0
  {
  }

  lemma SlopStep(n: nat)
    ensures (n + 1) % 64 == if n % 64 == 63 then 0 else n % 64 + 1
  {
  }

  class Engine {
    var digest: Chain
    var countLo: nat
    var countHi: nat
    const data: array<word>
    var slop: nat
    ghost var message: seq<octet>

    /** The bytes of `m` past the last whole block are in the buffer; the rest is in the digest. */
    ghost predicate Buffered(m: seq<octet>)
      reads this`slop, this`digest, data
    {
      && data.Length == 16
      && slop == |m| % BLOCK_SIZE
      && Octets(data[..])[..slop] == m[|m| - slop..]
      && digest == Fold(H0, Words(m[..|m| - slop]))
    }

    ghost predicate Valid()
      reads this, data
    {
      Buffered(message) && Counts(countHi, countLo, |message|)
    }

    constructor ()
      ensures Valid() && message == [] && fresh(data)
    {
      NothingFolded();
      hide Octets, Fold, Words;
      data := new word[16](_ => 0);
      digest := H0;
      countLo, countHi, slop := 0, 0, 0;
      message := [];
    }

    method Reset()
      requires data.Length == 16
      modifies this, data
      ensures Valid() && message == []
    {
      NothingFolded();
      hide Octets, Fold, Words;
      digest := H0;
      countLo, countHi, slop := 0, 0, 0;
      forall i | 0 <= i < 16 { data[i] := 0; }
      message := [];
    }

    /** db[i] = b, where db is the word buffer seen as octets. */
    method PutOctet(i: nat, b: octet)
      requires data.Length == 16 && i < 64
      modifies data
      ensures Octets(data[..]) == old(Octets(data[..]))[i := b]
    {
      hide OctetOf, SetOctet;
      ghost var before := data[..];
      data[i / 4] := SetOctet(data[i / 4], i % 4, b);
      forall j: nat | j < 64 ensures Octets(data[..])[j] == Octets(before)[i := b][j] {
        if j / 4 == i / 4 { SetOctetWorks(before[i / 4], i % 4, b, j % 4); }
      }
    }

    method ByteReverse(words: nat)
      requires data.Length == 16 && words <= 16
      modifies data
      ensures data[..] == Reversed(old(data[..]), words)
    {
      hide Reverse;
      for count := 0 to words
        invariant data[..] == Reversed(old(data[..]), count)
      {
        data[count] := Reverse(data[count]);
      }
    }

    /** transform: one block through the 80 rounds, which the source unrolls in four groups of 20. */
    method Transform()
      requires data.Length == 16
      modifies this`digest
      ensures digest == Compress(old(digest), data[..])
    {
      hide W, Round, Rounds, AddChain;
      ghost var block, h := data[..], digest;
      var w := ExpandBlock();
      RoundsStart(h, block);
      var r := digest;
      for i := 0 to 20
        invariant Expanded(w, block) && digest == h && r == Rounds(h, block, i)
      {
        RoundsNext(h, block, i);
        r := SubRound1(r, i, w[i]);
      }
      for i := 20 to 40
        invariant Expanded(w, block) && digest == h && r == Rounds(h, block, i)
      {
        RoundsNext(h, block, i);
        r := SubRound2(r, i, w[i]);
      }
      for i := 40 to 60
        invariant Expanded(w, block) && digest == h && r == Rounds(h, block, i)
      {
        RoundsNext(h, block, i);
        r := SubRound3(r, i, w[i]);
      }
      for i := 60 to 80
        invariant Expanded(w, block) && digest == h && r == Rounds(h, block, i)
      {
        RoundsNext(h, block, i);
        r := SubRound4(r, i, w[i]);
      }
      digest := AddChain(digest, r);
    }

    /** The expand macros of transform. */
    method ExpandBlock() returns (w: array<word>)
      requires data.Length == 16
      ensures fresh(w) && Expanded(w, data[..])
    {
      hide W, Blend;
      ghost var block := data[..];
      w := new word[80];
      for i := 0 to 16
        invariant forall j :: 0 <= j < i ==> w[j] == W(block, j)
      {
        WStart(block, i);
        w[i] := data[i];
      }
      for i := 16 to 80
        invariant forall j :: 0 <= j < i ==> w[j] == W(block, j)
      {
        WNext(block, i);
        w[i] := Blend(w[i - 3], w[i - 8], w[i - 14], w[i - 16]);
      }
    }

    /** Takes the 64 buffered octets into the digest. */
    method FlushBlock(ghost m: seq<octet>)
      requires data.Length == 16 && |m| >= 64 && |m| % 64 == 0
      requires Octets(data[..]) == m[|m| - 64..]
      requires digest == Fold(H0, Words(m[..|m| - 64]))
      modifies this`digest, data
      ensures digest == Fold(H0, Words(m))
    {
      hide Reversed, Fold, Words, Compress, Octets;
      assert Octets(data[..])[..4 * 16] == m[|m| - 64..];
      ReversedPrefix(data[..], 16, m[|m| - 64..]);
      ghost var before := data[..];
      ByteReverse(16);
      assert data[..] == Reversed(before, 16)[..16] == Words(m[|m| - 64..]);
      Transform();
      assert m == m[..|m| - 64] + m[|m| - 64..];
      FoldBlock(H0, m[..|m| - 64], m[|m| - 64..]);
    }

    /** The 64-bit addition at the head of updateImpl. */
    method AddCount(count: nat)
      requires Counts(countHi, countLo, |message|) && count < TWO32
      modifies this`countHi, this`countLo
      ensures Counts(countHi, countLo, |message| + count)
    {
      ghost var hi := countHi;
      var lo := (countLo + 8 * count % TWO32) % TWO32;
      if lo < countLo { countHi := (countHi + 1) % TWO32; }
      CountsAdd(hi, countLo, |message|, count, lo, countHi);
      hide Counts;
      countHi := (countHi + count / 0x2000_0000) % TWO32;
      countLo := lo;
    }

    /** updateImpl */
    method Update(buffer: array<octet>, count: nat)
      requires Valid() && buffer != data as object && count <= buffer.Length && count < TWO32
      modifies this, data
      ensures Valid() && message == old(message) + buffer[..count]
    {
      hide Octets, Fold, Words, Engine.Buffered;
      ghost var total := |message| + count;
      AddCount(count);
      hide Counts;
      ghost var m := message;
      assert m + buffer[..0] == m;
      for i := 0 to count
        invariant Buffered(m + buffer[..i]) && Counts(countHi, countLo, total)
      {
        AddOctet(buffer[i], m + buffer[..i]);
        assert m + buffer[..i] + [buffer[i]] == m + buffer[..i + 1];
      }
      message := m + buffer[..count];
    }

    /** One turn of updateImpl's loop. */
    method AddOctet(b: octet, ghost m: seq<octet>)
      requires Buffered(m)
      modifies this`slop, this`digest, data
      ensures Buffered(m + [b])
    {
      hide Octets, Fold, Words, Engine.Buffered;
      BufferedShape(m);
      ghost var m', start := m + [b], |m| - slop;
      SlopStep(|m|);
      Store(b, m);
      if slop == BLOCK_SIZE {
        assert Octets(data[..]) == Octets(data[..])[..64];
        FlushBlock(m');
        slop := 0;
        assert m'[..|m'|] == m';
        IsBuffered(m', |m'|);
      } else {
        IsBuffered(m', start);
      }
    }

    method Store(b: octet, ghost m: seq<octet>)
      requires Buffered(m)
      modifies this`slop, data
      ensures slop == old(slop) + 1
      ensures data.Length == 16 && slop <= 64 && old(slop) <= |m|
      ensures Octets(data[..])[..slop] == (m + [b])[|m| - old(slop)..]
      ensures digest == Fold(H0, Words((m + [b])[..|m| - old(slop)]))
    {
      hide Octets, Fold, Words;
      ghost var start := |m| - slop;
      PutOctet(slop, b);
      slop := slop + 1;
      assert (m + [b])[..start] == m[..start] && (m + [b])[start..] == m[start..] + [b];
    }

    lemma BufferedShape(m: seq<octet>)
      requires Buffered(m)
      ensures data.Length == 16 && slop == |m| % 64 && slop <= |m|
    {
    }

    lemma IsBuffered(m: seq<octet>, start: nat)
      requires data.Length == 16 && start <= |m| && start % 64 == 0 && slop == |m| - start < 64
      requires Octets(data[..])[..slop] == m[start..]
      requires digest == Fold(H0, Words(m[..start]))
      ensures Buffered(m)
    {
      hide Octets, Fold, Words;
    }

    /** memset(data + from, 0, to - from) */
    method ZeroFill(from: nat, to: nat)
      requires data.Length == 16 && from <= to <= 64
      modifies data
      ensures Octets(data[..])[..to] == old(Octets(data[..]))[..from] + Repeated(0, to - from)
    {
      hide Octets;
      for i := from to to
        invariant Octets(data[..])[..i] == old(Octets(data[..]))[..from] + Repeated(0, i - from)
      {
        ghost var before := Octets(data[..]);
        PutOctet(i, 0);
        assert Octets(data[..])[..i + 1] == before[..i] + [0];
      }
    }

    /** Appends the length words to the last 56 octets and takes the final block in. */
    method FinishBlock(hi: nat, lo: nat, ghost a: seq<octet>, ghost b: seq<octet>, ghost q: nat)
      requires data.Length == 16 && hi < TWO32 && lo < TWO32
      requires |a| == 64 * q && |b| == 56 && Octets(data[..])[..56] == b
      requires digest == Fold(H0, Words(a))
      modifies this`digest, data
      ensures digest == Fold(H0, Words(a + b) + [AsWord(hi), AsWord(lo)])
    {
      hide Reversed, Fold, Words, Compress, Octets, AsWord;
      ReversedPrefix(data[..], 14, b);
      ByteReverse(16);
      assert data[..14] == Words(b);
      data[14] := AsWord(hi);
      data[15] := AsWord(lo);
      ghost var l := [AsWord(hi), AsWord(lo)];
      assert data[..] == Words(b) + l;
      FoldLast(H0, a, b, l);
      Transform();
    }

    /** The first of two padding blocks, when the length words no longer fit behind the 0x80. */
    method FlushPadding(count: nat, ghost m: seq<octet>, ghost q: nat)
      requires data.Length == 16 && 56 < count <= 64 && |m| == 64 * q + count
      requires Octets(data[..])[..count] == m[|m| - count..]
      requires digest == Fold(H0, Words(m[..|m| - count]))
      modifies this`digest, data
      ensures digest == Fold(H0, Words(m + Repeated(0, 64 - count)))
      ensures Octets(data[..])[..56] == Repeated(0, 56)
    {
      hide Octets, Fold, Words;
      ZeroFill(count, 64);
      ghost var a := m + Repeated(0, 64 - count);
      assert Octets(data[..]) == Octets(data[..])[..64];
      assert a[|a| - 64..] == m[|m| - count..] + Repeated(0, 64 - count);
      assert a[..|a| - 64] == m[..|m| - count];
      FlushBlock(a);
      ZeroFill(0, 56);
    }

    /** Pads the message out to its last block and takes that in. */
    method Pad()
      requires Valid()
      modifies this`digest, data
      ensures data.Length == 16 && digest == Fold(H0, PaddedWords(message))
    {
      hide Octets, Fold, Words, LengthWords, AsWord, PadLength;
      var hi, lo := countHi, countLo;
      PadNumbers(|message|);
      CountsWords(hi, lo, |message|);
      PaddedSplit(message, hi, lo);
      hide Counts, PaddedWords;
      var count := countLo / 8 % 64;
      ghost var m, start := message + [0x80], |message| - slop;
      PutOctet(count, 0x80);
      count := count + 1;
      assert m[start..] == message[start..] + [0x80] && m[..start] == message[..start];
      assert Octets(data[..])[..count] == m[start..];
      ghost var k, q := PadLength(|message|), |message| / 64;
      FinishPadding(count, hi, lo, m, k, q);
    }

    /** The two cases of padding: into a further block, or within this one. */
    method FinishPadding(count: nat, hi: nat, lo: nat, ghost m: seq<octet>, ghost k: nat, ghost q: nat)
      requires data.Length == 16 && 0 < count <= 64 && hi < TWO32 && lo < TWO32 && |m| == 64 * q + count
      requires k == if count > 56 then 120 - count else 56 - count
      requires Octets(data[..])[..count] == m[64 * q..] && digest == Fold(H0, Words(m[..64 * q]))
      modifies this`digest, data
      ensures digest == Fold(H0, Words(m + Repeated(0, k)) + [AsWord(hi), AsWord(lo)])
    {
      hide Octets, Fold, Words, AsWord;
      PadPieces(m, 64 * q, k);
      if count > 56 {
        FlushPadding(count, m, q);
        FinishBlock(hi, lo, m + Repeated(0, k - 56), Repeated(0, 56), q + 1);
      } else {
        ZeroFill(count, 56);
        FinishBlock(hi, lo, m[..64 * q], m[64 * q..] + Repeated(0, k), q);
      }
    }

    /** digest */
    method Digest() returns (hash: seq<octet>)
      requires Valid()
      modifies this, data
      ensures hash == Sha1(old(message))
      ensures Valid() && message == []
    {
      hide Octets, Fold, PaddedWords, Counts;
      Pad();
      ByteReverse(5);
      hash := WordOctets(digest.a) + WordOctets(digest.b) + WordOctets(digest.c)
              + WordOctets(digest.d) + WordOctets(digest.e);
      Reset();
    }
  }

  lemma PadNumbers(n: nat)
    ensures n == 64 * (n / 64) + n % 64
    ensures PadLength(n) == if n % 64 + 1 > 56 then 119 - n % 64 else 55 - n % 64
  {
  }

  lemma PadPieces(m: seq<octet>, start: nat, k: nat)
    requires start <= |m|
    ensures k >= 56 ==> m + Repeated(0, k) == m + Repeated(0, k - 56) + Repeated(0, 56)
    ensures m + Repeated(0, k) == m[..start] + (m[start..] + Repeated(0, k))
  {
  }

  lemma PaddedSplit(m: seq<octet>, hi: nat, lo: nat)
    requires Counts(hi, lo, |m|)
    ensures PaddedWords(m) == Words(m + [0x80] + Repeated(0, PadLength(|m|))) + [AsWord(hi), AsWord(lo)]
  {
    hide AsWord, Words, PadLength;
    CountsWords(hi, lo, |m|);
    hide Counts;
  }

  lemma FoldLast(h: Chain, a: seq<octet>, b: seq<octet>, l: seq<word>)
    requires |a| % 64 == 0 && |b| == 56 && |l| == 2
    ensures |Words(b)| == 14
    ensures Compress(Fold(h, Words(a)), Words(b) + l) == Fold(h, Words(a + b) + l)
  {
    hide Compress, Words, Fold;
    WordsConcat(a, b);
    assert Words(a + b) + l == Words(a) + (Words(b) + l);
    FoldConcat(h, Words(a), Words(b) + l);
    FoldOne(Fold(h, Words(a)), Words(b) + l);
  }

  lemma FoldBlock(h: Chain, a: seq<octet>, b: seq<octet>)
    requires |a| % 64 == 0 && |b| == 64
    ensures |Words(b)| == 16
    ensures Compress(Fold(h, Words(a)), Words(b)) == Fold(h, Words(a + b))
  {
    hide Compress, Words, Fold;
    WholeBlocks(|a|);
    WordsConcat(a, b);
    FoldBehind(h, Words(a), Words(b));
  }

  lemma WholeBlocks(n: nat)
    requires n % 64 == 0
    ensures n % 4 == 0 && n / 4 % 16 == 0
  {
    var q := n / 64;
    assert n == 64 * q && n / 4 == 16 * q;
  }

  lemma FoldBehind(h: Chain, u: seq<word>, v: seq<word>)
    requires |u| % 16 == 0 && |v| == 16
    ensures Compress(Fold(h, u), v) == Fold(h, u + v)
  {
    hide Compress, Fold;
    FoldConcat(h, u, v);
    FoldOne(Fold(h, u), v);
  }

  lemma FoldOne(h: Chain, block: seq<word>)
    requires |block| == 16
    ensures Fold(h, block) == Compress(h, block)
  {
    hide Compress;
    assert block[..16] == block && block[16..] == [];
  }

  ghost function Joined(chunks: seq<array<octet>>): seq<octet>
    reads chunks
  {
    if chunks == [] then [] else Joined(chunks[..|chunks| - 1]) + chunks[|chunks| - 1][..]
  }

  /** However a message is cut into update calls, the digest is the SHA-1 of the whole. */
  method DigestOfChunks(chunks: seq<array<octet>>) returns (hash: seq<octet>)
    requires forall i :: 0 <= i < |chunks| ==> chunks[i].Length < TWO32
    ensures hash == Sha1(Joined(chunks))
  {
    hide Engine.Valid, Sha1;
    var e := new Engine();
    for i := 0 to |chunks|
      invariant fresh(e) && fresh(e.data) && e.Valid() && e.message == Joined(chunks[..i])
    {
      e.Update(chunks[i], chunks[i].Length);
      assert chunks[..i + 1][..i] == chunks[..i];
      assert chunks[i][..chunks[i].Length] == chunks[i][..];
    }
    assert chunks[..|chunks|] == chunks;
    hash := e.Digest();
  }

  ghost predicate Expanded(w: array<word>, block: seq<word>)
    requires |block| == 16
    reads w
  {
    w.Length == 80 && forall j :: 0 <= j < 80 ==> w[j] == W(block, j)
  }

  // The four sub-round macros.

  function SubRound1(r: Chain, ghost t: nat, w: word): (r': Chain)
    requires 0 <= t < 20
    ensures r' == Round(r, t, w)
  {
    hide Sum5, Rotl5, Rotl30, Choose, Parity, Majority;
    Chain(Sum5(Rotl5(r.a), Choose(r.b, r.c, r.d), r.e, w, 0x5A827999), r.a, Rotl30(r.b), r.c, r.d)
  }

  function SubRound2(r: Chain, ghost t: nat, w: word): (r': Chain)
    requires 20 <= t < 40
    ensures r' == Round(r, t, w)
  {
    hide Sum5, Rotl5, Rotl30, Choose, Parity, Majority;
    Chain(Sum5(Rotl5(r.a), Parity(r.b, r.c, r.d), r.e, w, 0x6ED9EBA1), r.a, Rotl30(r.b), r.c, r.d)
  }

  function SubRound3(r: Chain, ghost t: nat, w: word): (r': Chain)
    requires 40 <= t < 60
    ensures r' == Round(r, t, w)
  {
    hide Sum5, Rotl5, Rotl30, Choose, Parity, Majority;
    Chain(Sum5(Rotl5(r.a), Majority(r.b, r.c, r.d), r.e, w, 0x8F1BBCDC), r.a, Rotl30(r.b), r.c, r.d)
  }

  function SubRound4(r: Chain, ghost t: nat, w: word): (r': Chain)
    requires 60 <= t < 80
    ensures r' == Round(r, t, w)
  {
    hide Sum5, Rotl5, Rotl30, Choose, Parity, Majority;
    Chain(Sum5(Rotl5(r.a), Parity(r.b, r.c, r.d), r.e, w, 0xCA62C1D6), r.a, Rotl30(r.b), r.c, r.d)
  }

  lemma WStart(block: seq<word>, t: nat)
    requires |block| == 16 && t < 16
    ensures W(block, t) == block[t]
  {
  }

  lemma WNext(block: seq<word>, t: nat)
    requires |block| == 16 && t >= 16
    ensures W(block, t) == Blend(W(block, t - 3), W(block, t - 8), W(block, t - 14), W(block, t - 16))
  {
    hide Blend;
  }

  lemma RoundsStart(h: Chain, block: seq<word>)
    requires |block| == 16
    ensures Rounds(h, block, 0) == h
  {
  }

  /** The round function applied once more. */
  lemma RoundsNext(h: Chain, block: seq<word>, t: nat)
    requires |block| == 16
    ensures Rounds(h, block, t + 1) == Round(Rounds(h, block, t), t, W(block, t))
  {
    hide Round, W;
  }
}

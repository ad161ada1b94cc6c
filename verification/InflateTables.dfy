/** tinf_init: the static tables, built by loops, are those of sections 3.2.5 and 3.2.6 of RFC 1951. */
module InflateTables {
  import opened Bits
  import opened Common
  import opened Huffman
  import opened Deflate

  // ----- what tinf_build_bits_base computes -----

  function BitsAt(delta: nat, i: nat): nat
    requires delta > 0
  {
    if i < delta then 0 else (i - delta) / delta
  }

  function BaseAt(delta: nat, first: nat, i: nat): nat
    requires delta > 0
  {
    if i == 0 then first else BaseAt(delta, first, i - 1) + Pow2(BitsAt(delta, i - 1))
  }

  lemma {:induction false} BaseFollows(delta: nat, first: nat, bits: seq<nat>, base: seq<nat>, i: nat)
    requires delta > 0 && |bits| == |base| > i && base[0] == first
    requires forall j :: 0 <= j < i ==> bits[j] == BitsAt(delta, j)
    requires forall j :: 0 <= j < i ==> base[j + 1] == base[j] + Pow2(bits[j])
    ensures BaseAt(delta, first, i) == base[i]
  {
    if i > 0 { BaseFollows(delta, first, bits, base, i - 1); }
  }

  lemma SmallPowers()
    ensures Pow2(0) == 1 && Pow2(1) == 2 && Pow2(2) == 4 && Pow2(3) == 8 && Pow2(4) == 16
    ensures Pow2(5) == 32 && Pow2(6) == 64 && Pow2(7) == 128 && Pow2(8) == 256 && Pow2(9) == 512
    ensures Pow2(10) == 1024 && Pow2(11) == 2048 && Pow2(12) == 4096 && Pow2(13) == 8192
  {
  }

  lemma LengthSteps()
    ensures forall j :: 0 <= j < 28 ==> LENGTH_BITS[j] == BitsAt(4, j)
    ensures forall j :: 0 <= j < 27 ==> LENGTH_BASE[j + 1] == LENGTH_BASE[j] + Pow2(LENGTH_BITS[j])
  {
    SmallPowers();
    hide Pow2;
  }

  lemma DistSteps()
    ensures forall j :: 0 <= j < 30 ==> DIST_BITS[j] == BitsAt(2, j)
    ensures forall j :: 0 <= j < 29 ==> DIST_BASE[j + 1] == DIST_BASE[j] + Pow2(DIST_BITS[j])
  {
    SmallPowers();
    hide Pow2;
  }

  /** The loop reproduces the RFC's length table up to code 284. */
  lemma LengthTable(i: nat)
    requires i < 28
    ensures BitsAt(4, i) == LENGTH_BITS[i] && BaseAt(4, 3, i) == LENGTH_BASE[i]
  {
    LengthSteps();
    hide Pow2, BitsAt, BaseAt;
    BaseFollows(4, 3, LENGTH_BITS[..28], LENGTH_BASE[..28], i);
  }

  /** For code 285 it is wrong, so the table has to be patched. */
  lemma LastLengthCode()
    ensures BitsAt(4, 28) == 6 != LENGTH_BITS[28]
    ensures BaseAt(4, 3, 28) == 259 != LENGTH_BASE[28]
  {
    LengthTable(27);
    SmallPowers();
    hide Pow2;
  }

  lemma DistTable(i: nat)
    requires i < 30
    ensures BitsAt(2, i) == DIST_BITS[i] && BaseAt(2, 1, i) == DIST_BASE[i]
  {
    DistSteps();
    hide Pow2, BitsAt, BaseAt;
    BaseFollows(2, 1, DIST_BITS, DIST_BASE, i);
  }

  // ----- the fixed codes -----

  lemma {:induction false} CountConcat(a: seq<nat>, b: seq<nat>, l: nat)
    ensures Count(a + b, l) == Count(a, l) + Count(b, l)
  {
    if b == [] {
      assert a + b == a;
    } else {
      assert (a + b)[..|a + b| - 1] == a + b[..|b| - 1];
      CountConcat(a, b[..|b| - 1], l);
    }
  }

  lemma {:induction false} CountRepeated(x: nat, n: nat, l: nat)
    ensures Count(Repeated(x, n), l) == if x == l then n else 0
  {
    if n > 0 {
      CountRepeated(x, n - 1, l);
      assert Repeated(x, n)[..n - 1] == Repeated(x, n - 1);
    }
  }

  lemma CountFixed(l: nat)
    ensures Count(FIXED_LIT, l) == (if l == 8 then 152 else if l == 9 then 112 else if l == 7 then 24 else 0)
    ensures Count(FIXED_DIST, l) == (if l == 5 then 32 else 0)
  {
    var a, b, c, d := Repeated(8, 144), Repeated(9, 112), Repeated(7, 24), Repeated(8, 8);
    CountConcat(a, b, l);
    CountConcat(a + b, c, l);
    CountConcat(a + b + c, d, l);
    CountRepeated(8, 144, l);
    CountRepeated(9, 112, l);
    CountRepeated(7, 24, l);
    CountRepeated(8, 8, l);
    CountRepeated(5, 32, l);
  }

  lemma FixedLengths()
    ensures |FIXED_LIT| == 288 && |FIXED_DIST| == 32
    ensures Lengths(FIXED_LIT) && Lengths(FIXED_DIST)
    ensures forall s :: 0 <= s < 288 ==>
      FIXED_LIT[s] == if s < 144 then 8 else if s < 256 then 9 else if s < 280 then 7 else 8
    ensures forall s :: 0 <= s < 32 ==> FIXED_DIST[s] == 5
  {
  }

  lemma FixedOffsets()
    ensures Offset(FIXED_LIT, 7) == 0 && Offset(FIXED_LIT, 8) == 24 && Offset(FIXED_LIT, 9) == 176
    ensures Offset(FIXED_DIST, 5) == 0
  {
    forall l: nat
      ensures Count(FIXED_LIT, l) == (if l == 8 then 152 else if l == 9 then 112 else if l == 7 then 24 else 0)
      && Count(FIXED_DIST, l) == (if l == 5 then 32 else 0)
    {
      CountFixed(l);
    }
    hide Count;
    OffsetZero(FIXED_LIT, 7);
    OffsetZero(FIXED_DIST, 5);
    hide *;
    assert Offset(FIXED_LIT, 8) == Offset(FIXED_LIT, 7) + BlCount(FIXED_LIT, 7) by { OffsetNext(FIXED_LIT, 7); }
    assert Offset(FIXED_LIT, 9) == Offset(FIXED_LIT, 8) + BlCount(FIXED_LIT, 8) by { OffsetNext(FIXED_LIT, 8); }
    BlCounts(FIXED_LIT, 7);
    BlCounts(FIXED_LIT, 8);
  }

  lemma {:induction false} OffsetZero(lens: seq<nat>, l: nat)
    requires forall k :: 0 <= k < l ==> Count(lens, k) == 0
    ensures Offset(lens, l) == 0
  {
    if l > 0 { OffsetZero(lens, l - 1); }
  }

  lemma OffsetNext(lens: seq<nat>, l: nat)
    ensures Offset(lens, l + 1) == Offset(lens, l) + BlCount(lens, l)
  {
  }

  lemma BlCounts(lens: seq<nat>, l: nat)
    requires l > 0
    ensures BlCount(lens, l) == Count(lens, l)
  {
  }

  lemma FixedRank(s: nat)
    requires s < 288
    ensures |FIXED_LIT| == 288
    ensures Rank(FIXED_LIT, s) ==
      if s < 144 then s else if s < 256 then s - 144 else if s < 280 then s - 256 else s - 136
  {
    FixedLengths();
    var a, b, c := Repeated<nat>(8, 144), Repeated<nat>(9, 112), Repeated<nat>(7, 24);
    var l := FIXED_LIT[s];
    CountRepeated(8, 144, l);
    CountRepeated(9, 112, l);
    CountRepeated(7, 24, l);
    if s < 144 {
      assert FIXED_LIT[..s] == Repeated<nat>(8, s);
      CountRepeated(8, s, l);
    } else if s < 256 {
      assert FIXED_LIT[..s] == a + Repeated<nat>(9, s - 144);
      CountConcat(a, Repeated<nat>(9, s - 144), l);
      CountRepeated(9, s - 144, l);
    } else if s < 280 {
      assert FIXED_LIT[..s] == a + b + Repeated<nat>(7, s - 256);
      CountConcat(a, b, l);
      CountConcat(a + b, Repeated<nat>(7, s - 256), l);
      CountRepeated(7, s - 256, l);
    } else {
      assert FIXED_LIT[..s] == a + b + c + Repeated<nat>(8, s - 280);
      CountConcat(a, b, l);
      CountConcat(a + b, c, l);
      CountConcat(a + b + c, Repeated<nat>(8, s - 280), l);
      CountRepeated(8, s - 280, l);
    }
  }

  lemma FixedDistRank(s: nat)
    requires s < 32
    ensures |FIXED_DIST| == 32 && Rank(FIXED_DIST, s) == s
  {
    FixedLengths();
    assert FIXED_DIST[..s] == Repeated<nat>(5, s);
    CountRepeated(5, s, 5);
  }

  /** The symbols of the fixed literal code in the order the decoder's table lists them. */
  lemma FixedPlace(s: nat)
    requires s < 288
    ensures |FIXED_LIT| == 288
    ensures Place(FIXED_LIT, s) ==
      if s < 144 then 24 + s else if s < 256 then 32 + s else if s < 280 then s - 256 else s - 112
  {
    FixedLengths();
    FixedOffsets();
    FixedRank(s);
    hide Offset, Count;
  }

  lemma {:induction false} EndCodeQuiet(lens: seq<nat>, l: nat, m: nat)
    requires l <= m && forall k :: l < k <= m ==> Count(lens, k) == 0
    ensures EndCode(lens, m) == EndCode(lens, l) * Pow2(m - l)
  {
    if l < m {
      EndCodeQuiet(lens, l, m - 1);
      assert EndCode(lens, m) == 2 * EndCode(lens, m - 1) && Pow2(m - l) == 2 * Pow2(m - 1 - l);
      hide FirstCode, EndCode, Pow2, Count;
      Doubled(EndCode(lens, l), Pow2(m - 1 - l));
    }
  }

  lemma NoCodes(l: nat)
    ensures (l < 7 || l > 9) ==> Count(FIXED_LIT, l) == 0
    ensures l != 5 ==> Count(FIXED_DIST, l) == 0
  {
    CountFixed(l);
  }

  lemma FixedEndCodes()
    ensures EndCode(FIXED_LIT, 9) == 512 && EndCode(FIXED_DIST, 5) == 32
  {
    forall l: nat ensures (l < 7 ==> Count(FIXED_LIT, l) == 0) && (l < 5 ==> Count(FIXED_DIST, l) == 0) {
      NoCodes(l);
    }
    hide Count, FirstCode, Pow2;
    EndCodeQuiet(FIXED_LIT, 0, 6);
    EndCodeQuiet(FIXED_DIST, 0, 4);
    EndCodeZero(FIXED_LIT);
    EndCodeZero(FIXED_DIST);
    CountFixed(7);
    CountFixed(8);
    CountFixed(9);
    CountFixed(5);
    NextEndCode(FIXED_LIT, 7);
    NextEndCode(FIXED_LIT, 8);
    NextEndCode(FIXED_LIT, 9);
    NextEndCode(FIXED_DIST, 5);
  }

  lemma EndCodeZero(lens: seq<nat>)
    ensures EndCode(lens, 0) == 0
  {
  }

  /** Both fixed codes are complete: Kraft's inequality holds with equality. */
  lemma FixedKraft()
    ensures KraftSum(FIXED_LIT) == Pow2(MAX_BITS) && KraftSum(FIXED_DIST) == Pow2(MAX_BITS)
  {
    hide Count, KraftSum, FirstCode, EndCode, Pow2, Repeated;
    forall l: nat ensures (l > 9 ==> Count(FIXED_LIT, l) == 0) && (l > 5 ==> Count(FIXED_DIST, l) == 0) {
      NoCodes(l);
    }
    KraftSumIsEndCode(FIXED_LIT);
    KraftSumIsEndCode(FIXED_DIST);
    FixedEndCodes();
    EndCodeQuiet(FIXED_LIT, 9, 15);
    EndCodeQuiet(FIXED_DIST, 5, 15);
    PowersAt15();
  }

  lemma PowersAt15()
    ensures Pow2(15) == 512 * Pow2(6) == 32 * Pow2(10)
  {
  }

  lemma NextEndCode(lens: seq<nat>, l: nat)
    requires l > 0
    ensures EndCode(lens, l) == 2 * EndCode(lens, l - 1) + Count(lens, l)
  {
  }

  lemma BothTables()
    ensures forall i :: 0 <= i < 28 ==> BitsAt(4, i) == LBits(i) && BaseAt(4, 3, i) == LBase(i)
    ensures forall i :: 0 <= i < 30 ==> BitsAt(2, i) == DBits(i) && BaseAt(2, 1, i) == DBase(i)
    ensures LBits(28) == 0 && LBase(28) == 258
  {
    hide BitsAt, BaseAt;
    forall i | 0 <= i < 28 ensures BitsAt(4, i) == LBits(i) && BaseAt(4, 3, i) == LBase(i) {
      LengthTable(i);
    }
    forall i | 0 <= i < 30 ensures BitsAt(2, i) == DBits(i) && BaseAt(2, 1, i) == DBase(i) {
      DistTable(i);
    }
  }

  /** The global tables of the decoder. */
  class StaticTables {
    const sltree: Tree
    const sdtree: Tree
    const lengthBits: array<nat>
    const lengthBase: array<nat>
    const distBits: array<nat>
    const distBase: array<nat>

    ghost predicate Ready()
      reads this, sltree.table, sltree.trans, sdtree.table, sdtree.trans
      reads lengthBits, lengthBase, distBits, distBase
    {
      && sltree.Built(FIXED_LIT) && sdtree.Built(FIXED_DIST)
      && lengthBits.Length == lengthBase.Length == distBits.Length == distBase.Length == 30
      && (forall i :: 0 <= i < 29 ==> lengthBits[i] == LBits(i) && lengthBase[i] == LBase(i))
      && (forall i :: 0 <= i < 30 ==> distBits[i] == DBits(i) && distBase[i] == DBase(i))
    }

    /** tinf_init */
    constructor ()
      ensures Ready()
      ensures fresh(sltree.table) && fresh(sltree.trans) && fresh(sdtree.table) && fresh(sdtree.trans)
      ensures fresh(lengthBits) && fresh(lengthBase) && fresh(distBits) && fresh(distBase)
    {
      sltree := new Tree();
      sdtree := new Tree();
      lengthBits := new nat[30];
      lengthBase := new nat[30];
      distBits := new nat[30];
      distBase := new nat[30];
      new;
      hide BitsAt, BaseAt, LBits, LBase, DBits, DBase;
      BuildFixedLiterals(sltree);
      BuildFixedDistances(sdtree);
      BuildBitsBase(lengthBits, lengthBase, 4, 3);
      BuildBitsBase(distBits, distBase, 2, 1);
      BothTables();
      lengthBits[28] := 0;
      lengthBase[28] := 258;
    }
  }

  lemma BitsStep(delta: nat, i: nat)
    requires delta > 0
    ensures BitsAt(delta, i) == if i < delta then 0 else (i - delta) / delta
  {
  }

  lemma BaseStep(delta: nat, first: nat, i: nat)
    requires delta > 0
    ensures BaseAt(delta, first, i)
         == if i == 0 then first else BaseAt(delta, first, i - 1) + Pow2(BitsAt(delta, i - 1))
  {
  }

  /** tinf_build_bits_base */
  method BuildBitsBase(bits: array<nat>, base: array<nat>, delta: nat, first: nat)
    requires 0 < delta <= 30 && bits.Length == base.Length == 30 && bits != base
    modifies bits, base
    ensures forall i :: 0 <= i < 30 ==> bits[i] == BitsAt(delta, i) && base[i] == BaseAt(delta, first, i)
  {
    hide BitsAt, BaseAt, Pow2;
    for i := 0 to delta
      invariant forall k :: 0 <= k < i ==> bits[k] == BitsAt(delta, k)
    {
      BitsStep(delta, i);
      bits[i] := 0;
    }
    for i := 0 to 30 - delta
      invariant forall k :: 0 <= k < i + delta ==> bits[k] == BitsAt(delta, k)
    {
      BitsStep(delta, i + delta);
      bits[i + delta] := i / delta;
    }
    BaseStep(delta, first, 0);
    var sum := first;
    for i := 0 to 30
      invariant sum == BaseAt(delta, first, i)
      invariant forall k :: 0 <= k < 30 ==> bits[k] == BitsAt(delta, k)
      invariant forall k :: 0 <= k < i ==> base[k] == BaseAt(delta, first, k)
    {
      BaseStep(delta, first, i + 1);
      base[i] := sum;
      sum := sum + Pow2(bits[i]);
    }
  }

  /** The k-th symbol of the fixed literal code, in code order. */
  function FixedSymbol(k: nat): nat {
    if k < 24 then 256 + k else if k < 168 then k - 24 else if k < 176 then 112 + k else k - 32
  }

  /** The literal half of tinf_build_fixed_trees, on a tree zeroed as static storage is. */
  method BuildFixedLiterals(lt: Tree)
    requires lt.Shape() && forall l :: 0 <= l < 16 ==> lt.table[l] == 0
    modifies lt.table, lt.trans
    ensures lt.Built(FIXED_LIT)
  {
    for i := 0 to 7
      invariant forall l :: 0 <= l < 16 ==> lt.table[l] == 0
    {
      lt.table[i] := 0;
    }
    for i := 0 to 24
      invariant forall k :: 0 <= k < i ==> lt.trans[k] == FixedSymbol(k)
      invariant forall l :: 0 <= l < 16 ==> lt.table[l] == 0
    {
      lt.trans[i] := 256 + i;
    }
    for i := 0 to 144
      invariant forall k :: 0 <= k < 24 + i ==> lt.trans[k] == FixedSymbol(k)
      invariant forall l :: 0 <= l < 16 ==> lt.table[l] == 0
    {
      lt.trans[24 + i] := i;
    }
    for i := 0 to 8
      invariant forall k :: 0 <= k < 24 + 144 + i ==> lt.trans[k] == FixedSymbol(k)
      invariant forall l :: 0 <= l < 16 ==> lt.table[l] == 0
    {
      lt.trans[24 + 144 + i] := 280 + i;
    }
    for i := 0 to 112
      invariant forall k :: 0 <= k < 24 + 144 + 8 + i ==> lt.trans[k] == FixedSymbol(k)
      invariant forall l :: 0 <= l < 16 ==> lt.table[l] == 0
    {
      lt.trans[24 + 144 + 8 + i] := 144 + i;
    }
    lt.table[7] := 24;
    lt.table[8] := 152;
    lt.table[9] := 112;
    FixedLengths();
    forall l: nat | l < 16 ensures lt.table[l] == BlCount(FIXED_LIT, l) { CountFixed(l); }
    forall s: nat | s < 288 ensures lt.Placed(FIXED_LIT, s) {
      FixedPlace(s);
      assert FixedSymbol(Place(FIXED_LIT, s)) == s;
    }
  }

  /** The distance half of tinf_build_fixed_trees. */
  method BuildFixedDistances(dt: Tree)
    requires dt.Shape() && forall l :: 0 <= l < 16 ==> dt.table[l] == 0
    modifies dt.table, dt.trans
    ensures dt.Built(FIXED_DIST)
  {
    for i := 0 to 5
      invariant forall l :: 0 <= l < 16 ==> dt.table[l] == 0
    {
      dt.table[i] := 0;
    }
    for i := 0 to 32
      invariant forall k :: 0 <= k < i ==> dt.trans[k] == k
      invariant forall l :: 0 <= l < 16 ==> dt.table[l] == 0
    {
      dt.trans[i] := i;
    }
    dt.table[5] := 32;
    FixedLengths();
    forall l: nat | l < 16 ensures dt.table[l] == BlCount(FIXED_DIST, l) { CountFixed(l); }
    FixedOffsets();
    forall s: nat | s < 32 ensures dt.Placed(FIXED_DIST, s) { FixedDistRank(s); }
  }
}

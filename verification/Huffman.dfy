/** Canonical Huffman codes: section 3.2.2 of RFC 1951, and the decoder tables built for them. */
module Huffman {
  import opened Bits

  const MAX_BITS: nat := 15
  const MAX_SYMBOLS: nat := 288

  // ----- the code that the RFC assigns to a vector of code lengths -----

  function Count(lens: seq<nat>, l: nat): (c: nat)
    ensures c <= |lens|
  {
    if lens == [] then 0
    else Count(lens[..|lens| - 1], l) + (if lens[|lens| - 1] == l then 1 else 0)
  }

  /** bl_count: how many symbols have an l-bit code; length 0 means "no code". */
  function BlCount(lens: seq<nat>, l: nat): nat {
    if l == 0 then 0 else Count(lens, l)
  }

  /** The smallest code of length l. */
  function FirstCode(lens: seq<nat>, l: nat): nat {
    if l == 0 then 0 else 2 * (FirstCode(lens, l - 1) + BlCount(lens, l - 1))
  }

  /** One past the largest code of length l. */
  function EndCode(lens: seq<nat>, l: nat): nat {
    FirstCode(lens, l) + BlCount(lens, l)
  }

  function Rank(lens: seq<nat>, s: nat): nat
    requires s < |lens|
  {
    Count(lens[..s], lens[s])
  }

  predicate Lengths(lens: seq<nat>) {
    && |lens| <= MAX_SYMBOLS
    && forall i :: 0 <= i < |lens| ==> lens[i] <= MAX_BITS
  }

  predicate HasCode(lens: seq<nat>, s: nat) {
    s < |lens| && 0 < lens[s] <= MAX_BITS
  }

  function Code(lens: seq<nat>, s: nat): nat
    requires s < |lens|
  {
    FirstCode(lens, lens[s]) + Rank(lens, s)
  }

  function CodeBits(lens: seq<nat>, s: nat): (b: seq<bit>)
    ensures s < |lens| ==> |b| == lens[s]
  {
    if s < |lens| then MsbBits(Code(lens, s), lens[s]) else []
  }

  /** The Kraft sum in units of 2^-15. */
  function KraftSum(lens: seq<nat>): nat {
    if lens == [] then 0
    else
      var l := lens[|lens| - 1];
      KraftSum(lens[..|lens| - 1]) + (if 0 < l <= MAX_BITS then Pow2(MAX_BITS - l) else 0)
  }

  predicate Kraft(lens: seq<nat>) {
    KraftSum(lens) <= Pow2(MAX_BITS)
  }

  // ----- facts about the assignment -----

  lemma {:induction false} CountPrefix(lens: seq<nat>, i: nat, l: nat)
    requires i < |lens|
    ensures Count(lens[..i + 1], l) == Count(lens[..i], l) + (if lens[i] == l then 1 else 0)
    ensures Count(lens[..i + 1], l) <= Count(lens, l)
    decreases |lens| - i
  {
    var p := lens[..i + 1];
    assert p[..|p| - 1] == lens[..i];
    if i + 1 < |lens| {
      CountPrefix(lens, i + 1, l);
    } else {
      assert p == lens;
    }
  }

  lemma RankBound(lens: seq<nat>, s: nat)
    requires s < |lens|
    ensures Rank(lens, s) < Count(lens, lens[s])
  {
    CountPrefix(lens, s, lens[s]);
  }

  /** Adding one symbol of length x moves the end of the codes of length l by 2^(l-x). */
  lemma {:induction false} EndCodeStep(lens: seq<nat>, x: nat, l: nat)
    ensures EndCode(lens + [x], l) == EndCode(lens, l) + (if 0 < x <= l then Pow2(l - x) else 0)
  {
    assert (lens + [x])[..|lens|] == lens;
    if l > 0 {
      EndCodeStep(lens, x, l - 1);
      assert EndCode(lens + [x], l) == 2 * EndCode(lens + [x], l - 1) + Count(lens + [x], l);
    }
  }

  /** The Kraft sum is where the 15-bit codes end. */
  lemma {:induction false} KraftSumIsEndCode(lens: seq<nat>)
    ensures KraftSum(lens) == EndCode(lens, MAX_BITS)
  {
    if lens == [] {
      EndCodeOfNothing(MAX_BITS);
    } else {
      var n := |lens| - 1;
      KraftSumIsEndCode(lens[..n]);
      EndCodeStep(lens[..n], lens[n], MAX_BITS);
      assert lens == lens[..n] + [lens[n]];
    }
  }

  lemma {:induction false} EndCodeOfNothing(l: nat)
    ensures EndCode([], l) == 0
  {
    if l > 0 { EndCodeOfNothing(l - 1); }
  }

  /** Every code of a shorter length, extended, stays below the first code of a longer one. */
  lemma Doubled(e: int, p: int)
    ensures e * (2 * p) == 2 * (e * p)
  {
  }

  lemma {:induction false} FirstCodeGrows(lens: seq<nat>, l: nat, m: nat)
    requires l < m
    ensures FirstCode(lens, m) >= EndCode(lens, l) * Pow2(m - l)
  {
    if l + 1 == m {
      assert Pow2(m - l) == 2 * Pow2(0) == 2;
    } else {
      FirstCodeGrows(lens, l, m - 1);
      assert FirstCode(lens, m) >= 2 * FirstCode(lens, m - 1) && Pow2(m - l) == 2 * Pow2(m - 1 - l);
      hide FirstCode, EndCode, Pow2;
      Doubled(EndCode(lens, l), Pow2(m - 1 - l));
    }
  }

  lemma KraftFits(lens: seq<nat>, l: nat)
    requires Kraft(lens) && l <= MAX_BITS
    ensures EndCode(lens, l) <= Pow2(l)
  {
    KraftSumIsEndCode(lens);
    if l < MAX_BITS {
      FirstCodeGrows(lens, l, MAX_BITS);
      Pow2Adds(l, MAX_BITS - l);
      MulCancel(EndCode(lens, l), Pow2(l), Pow2(MAX_BITS - l));
    }
  }

  lemma MulCancel(a: nat, b: nat, p: nat)
    requires p > 0 && a * p <= b * p
    ensures a <= b
  {
    if a > b { MulMono(b + 1, a, p); }
  }

  lemma MulMono(a: nat, b: nat, p: nat)
    requires a <= b
    ensures a * p <= b * p
  {
  }

  function Offset(lens: seq<nat>, l: nat): nat {
    if l == 0 then 0 else Offset(lens, l - 1) + BlCount(lens, l - 1)
  }

  lemma NextOffset(lens: seq<nat>)
    ensures Offset(lens, 0) == 0
    ensures forall l: nat :: Offset(lens, l + 1) == Offset(lens, l) + BlCount(lens, l)
  {
  }

  lemma {:induction false} OffsetMono(lens: seq<nat>, l: nat, m: nat)
    requires l < m
    ensures Offset(lens, l) + BlCount(lens, l) <= Offset(lens, m)
  {
    if l + 1 < m { OffsetMono(lens, l, m - 1); }
  }

  lemma {:induction false} OffsetStep(lens: seq<nat>, x: nat, l: nat)
    ensures Offset(lens + [x], l) == Offset(lens, l) + (if 0 < x < l then 1 else 0)
  {
    assert (lens + [x])[..|lens|] == lens;
    if l > 0 { OffsetStep(lens, x, l - 1); }
  }

  lemma {:induction false} OffsetBound(lens: seq<nat>, l: nat)
    ensures Offset(lens, l) <= |lens|
  {
    if lens == [] {
      OffsetOfNothing(l);
    } else {
      var n := |lens| - 1;
      OffsetBound(lens[..n], l);
      OffsetStep(lens[..n], lens[n], l);
      assert lens == lens[..n] + [lens[n]];
    }
  }

  lemma {:induction false} OffsetOfNothing(l: nat)
    ensures Offset([], l) == 0
  {
    if l > 0 { OffsetOfNothing(l - 1); }
  }

  /** Where the symbol sits when symbols are sorted by length, then by value. */
  function Place(lens: seq<nat>, s: nat): nat
    requires s < |lens|
  {
    Offset(lens, lens[s]) + Rank(lens, s)
  }

  lemma PlaceBound(lens: seq<nat>, s: nat)
    requires HasCode(lens, s)
    ensures Place(lens, s) < |lens|
  {
    RankBound(lens, s);
    OffsetBound(lens, lens[s] + 1);
  }

  lemma PlaceInjective(lens: seq<nat>, s: nat, t: nat)
    requires HasCode(lens, s) && HasCode(lens, t) && s < t
    ensures Place(lens, s) != Place(lens, t)
  {
    RankBound(lens, s);
    RankBound(lens, t);
    if lens[s] < lens[t] {
      OffsetMono(lens, lens[s], lens[t]);
    } else if lens[t] < lens[s] {
      OffsetMono(lens, lens[t], lens[s]);
    } else {
      RankBound(lens[..t], s);
      assert lens[..t][..s] == lens[..s];
    }
  }

  /** Where the next symbol of length l goes, once the first i symbols are placed. */
  function NextPlace(lens: seq<nat>, i: nat, l: nat): nat
    requires i <= |lens|
  {
    Offset(lens, l) + Count(lens[..i], l)
  }

  lemma NextPlaceStep(lens: seq<nat>, i: nat)
    requires i < |lens| && Lengths(lens)
    ensures forall l: nat :: NextPlace(lens, i + 1, l) == NextPlace(lens, i, l) + (if l == lens[i] then 1 else 0)
    ensures NextPlace(lens, i, lens[i]) == Place(lens, i)
    ensures lens[i] > 0 ==> Place(lens, i) < |lens|
    ensures lens[i] > 0 ==> forall s :: 0 <= s < i && lens[s] > 0 ==> Place(lens, s) != Place(lens, i)
  {
    hide Offset, Count;
    forall l: nat ensures NextPlace(lens, i + 1, l) == NextPlace(lens, i, l) + (if l == lens[i] then 1 else 0) {
      CountPrefix(lens, i, l);
    }
    hide Place;
    if lens[i] > 0 {
      PlaceBound(lens, i);
      forall s: nat | s < i && lens[s] > 0 ensures Place(lens, s) != Place(lens, i) { PlaceInjective(lens, s, i); }
    }
  }

  // ----- the decoder's tables -----

  /** TINF_TREE: code-length counts, and symbols sorted by code. */
  class Tree {
    const table: array<nat>
    const trans: array<nat>

    ghost predicate Shape() {
      table.Length == 16 && trans.Length == MAX_SYMBOLS && table != trans
    }

    /** The tables describe the canonical code of `lens`. */
    ghost predicate Built(lens: seq<nat>)
      reads table, trans
    {
      && Shape()
      && Lengths(lens)
      && (forall l :: 0 <= l < 16 ==> table[l] == BlCount(lens, l))
      && (forall s :: 0 <= s < |lens| && lens[s] > 0 ==> Placed(lens, s))
    }

    ghost predicate Placed(lens: seq<nat>, s: nat)
      requires Shape() && s < |lens| && lens[s] > 0 && Lengths(lens)
      reads trans
    {
      Place(lens, s) < MAX_SYMBOLS && trans[Place(lens, s)] == s
    }

    constructor ()
      ensures Shape() && fresh(table) && fresh(trans)
      ensures forall l :: 0 <= l < 16 ==> table[l] == 0
    {
      table := new nat[16](_ => 0);
      trans := new nat[MAX_SYMBOLS](_ => 0);
    }

    /** tinf_build_tree on `lengths[from .. from + num]`. */
    method Build(lengths: array<nat>, from: nat, num: nat)
      requires Shape() && from + num <= lengths.Length
      requires lengths != table && lengths != trans
      requires Lengths(lengths[from..from + num])
      modifies table, trans
      ensures Built(lengths[from..from + num])
    {
      ghost var lens := lengths[from..from + num];
      CountLengths(lengths, from, num);
      hide BlCount, Offset, Placed;
      NextOffset(lens);
      var offs := new nat[16];
      var sum := 0;
      for i := 0 to 16
        invariant sum == Offset(lens, i)
        invariant forall l :: 0 <= l < i ==> offs[l] == Offset(lens, l)
        invariant forall l :: 0 <= l < 16 ==> table[l] == BlCount(lens, l)
      {
        offs[i] := sum;
        sum := sum + table[i];
      }
      PlaceSymbols(lengths, from, num, offs, lens);
    }

    /** The distribution sort at the end of tinf_build_tree. */
    method PlaceSymbols(lengths: array<nat>, from: nat, num: nat, offs: array<nat>, ghost lens: seq<nat>)
      requires Shape() && from + num <= lengths.Length && offs.Length == 16
      requires lengths != trans && offs != trans && offs != lengths && offs != table
      requires Lengths(lens) && lens == lengths[from..from + num]
      requires forall l :: 0 <= l < 16 ==> offs[l] == Offset(lens, l)
      modifies trans, offs
      ensures forall s :: 0 <= s < |lens| && lens[s] > 0 ==> Placed(lens, s)
    {
      assert lens[..0] == [];
      hide Offset, Place;
      for i := 0 to num
        invariant forall l :: 0 < l < 16 ==> offs[l] == NextPlace(lens, i, l)
        invariant forall s :: 0 <= s < i && lens[s] > 0 ==> Placed(lens, s)
      {
        assert lengths[from + i] == lens[i];
        NextPlaceStep(lens, i);
        hide NextPlace;
        if lengths[from + i] != 0 {
          var l := lengths[from + i];
          trans[offs[l]] := i;
          offs[l] := offs[l] + 1;
        }
      }
    }

    /** The first two loops of tinf_build_tree: count the symbols of each length. */
    method CountLengths(lengths: array<nat>, from: nat, num: nat)
      requires Shape() && from + num <= lengths.Length
      requires lengths != table
      requires Lengths(lengths[from..from + num])
      modifies table
      ensures forall l :: 0 <= l < 16 ==> table[l] == BlCount(lengths[from..from + num], l)
    {
      ghost var lens := lengths[from..from + num];
      for i := 0 to 16
        invariant forall l :: 0 <= l < i ==> table[l] == 0
      {
        table[i] := 0;
      }
      for i := 0 to num
        invariant forall l :: 0 <= l < 16 ==> table[l] == Count(lens[..i], l)
      {
        forall l ensures Count(lens[..i + 1], l) == Count(lens[..i], l) + (if lens[i] == l then 1 else 0) {
          CountPrefix(lens, i, l);
        }
        assert lengths[from + i] == lens[i];
        table[lengths[from + i]] := table[lengths[from + i]] + 1;
      }
      assert lens[..num] == lens;
      table[0] := 0;
    }
  }
}

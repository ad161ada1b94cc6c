/** Stream: a growing byte buffer with a read position, little-endian. */
module Stream {
  import opened Bits
  import opened Common

  // ----- numbers as bytes -----

  function Le(v: nat, width: nat): (r: seq<byte>)
    ensures |r| == width
  {
    if width == 0 then [] else [v % 256] + Le(v / 256, width - 1)
  }

  function Number(s: seq<byte>): nat {
    if s == [] then 0 else s[0] + 256 * Number(s[1..])
  }

  function Limit(width: nat): (r: nat)
    ensures r > 0
  {
    if width == 0 then 1 else 256 * Limit(width - 1)
  }

  lemma {:induction false} NumberOfLe(v: nat, width: nat)
    requires v < Limit(width)
    ensures Number(Le(v, width)) == v
  {
    if width > 0 {
      NumberOfLe(v / 256, width - 1);
      assert Le(v, width)[1..] == Le(v / 256, width - 1);
    }
  }

  lemma Limits()
    ensures Limit(2) == 0x1_0000 && Limit(4) == 0x1_0000_0000
  {
    assert Limit(1) == 256 && Limit(3) == 256 * Limit(2);
  }

  // ----- items -----

  /** What the overloads of << write and >> read into: a number of `width` bytes, a string, a counted vector of
      numbers, or a vector of bytes, which has no count. */
  datatype Item =
    | Num(width: nat, value: nat)
    | Text(text: seq<byte>)
    | Vector(width: nat, elems: seq<nat>)
    | Raw(bytes: seq<byte>)

  const MAX_TEXT: nat := 0x1_0000
  const MAX_COUNT: nat := 0x1_0000_0000

  /** Variables of one C++ type. */
  predicate SameType(v: Item, x: Item) {
    match x
    case Num(w, _) => v.Num? && v.width == w
    case Text(_) => v.Text?
    case Vector(w, _) => v.Vector? && v.width == w
    case Raw(_) => v.Raw?
  }

  /** Numbers fit their C++ type, and so do the bytes: what any item written in C++ satisfies. */
  predicate Typed(x: Item) {
    match x
    case Num(w, v) => v < Limit(w)
    case Text(_) => true
    case Vector(w, es) => w > 0 && |es| < MAX_COUNT && forall i :: 0 <= i < |es| ==> es[i] < Limit(w)
    case Raw(_) => true
  }

  function Elems(es: seq<nat>, width: nat): (r: seq<byte>)
    ensures |r| == |es| * width
  {
    if es == [] then [] else Le(es[0], width) + Elems(es[1..], width)
  }

  /** A string's length field is a UInt16, whatever its length. */
  function Encode(x: Item): seq<byte> {
    match x
    case Num(w, v) => Le(v, w)
    case Text(t) => Le(|t| % MAX_TEXT, 2) + t
    case Vector(w, es) => Le(|es|, 4) + Elems(es, w)
    case Raw(b) => b
  }

  function EncodeAll(xs: seq<Item>): seq<byte> {
    if xs == [] then [] else Encode(xs[0]) + EncodeAll(xs[1..])
  }

  // ----- reading -----

  function Min(a: nat, b: nat): nat { if a < b then a else b }

  /** A number read over an old value: bytes that are not there leave the old ones. */
  function NumIn(rest: seq<byte>, width: nat, stale: nat): nat {
    var k := Min(width, |rest|);
    Number(rest[..k] + Le(stale, width)[k..])
  }

  function Cut(data: seq<byte>, width: nat, n: nat): (r: seq<nat>)
    requires |data| == n * width
    ensures |r| == n
    decreases n
  {
    if n == 0 then []
    else
      CutSize(n, width);
      [Number(data[..width])] + Cut(data[width..], width, n - 1)
  }

  lemma CutSize(n: nat, width: nat)
    requires n > 0
    ensures n * width == (n - 1) * width + width
  {
  }

  /** vector::resize */
  function Resized(es: seq<nat>, n: nat): (r: seq<nat>)
    ensures |r| == n
  {
    if n <= |es| then es[..n] else es + Repeated(0, n - |es|)
  }

  /** What >> leaves in variable v, and how far it moves. Bytes that are not there leave the old ones; `junk` is
      what the local variable for a length starts with. */
  function Decode(v: Item, rest: seq<byte>, junk: nat): (r: (Item, nat))
    ensures r.1 <= |rest|
  {
    match v
    case Num(w, old_v) => (Num(w, NumIn(rest, w, old_v)), Min(w, |rest|))
    case Text(_) =>
      var l := NumIn(rest, 2, junk);
      var k := Min(2, |rest|);
      var m := Min(l, |rest| - k);
      (Text(rest[k..k + m]), k + m)
    case Vector(w, es) =>
      var n := NumIn(rest, 4, junk);
      var k := Min(4, |rest|);
      var m := Min(n * w, |rest| - k);
      (Vector(w, Cut(rest[k..k + m] + Elems(Resized(es, n), w)[m..], w, n)), k + m)
    case Raw(b) =>
      var m := Min(|b|, |rest|);
      (Raw(rest[..m] + b[m..]), m)
  }

  /** Reading into a list of variables one after another. */
  function DecodeAll(vs: seq<Item>, rest: seq<byte>, junk: nat): (r: (seq<Item>, nat))
    ensures r.1 <= |rest|
    decreases |vs|
  {
    if vs == [] then ([], 0)
    else
      var (x, n) := Decode(vs[0], rest, junk);
      var (xs, m) := DecodeAll(vs[1..], rest[n..], junk);
      ([x] + xs, n + m)
  }

  // ----- reading undoes writing -----

  lemma NumBack(v: nat, width: nat, rest: seq<byte>, stale: nat)
    requires v < Limit(width)
    ensures NumIn(Le(v, width) + rest, width, stale) == v
  {
    NumberOfLe(v, width);
    assert (Le(v, width) + rest)[..width] + Le(stale, width)[width..] == Le(v, width);
  }

  lemma {:induction false} CutElems(es: seq<nat>, width: nat)
    requires forall i :: 0 <= i < |es| ==> es[i] < Limit(width)
    ensures Cut(Elems(es, width), width, |es|) == es
  {
    if es != [] {
      var b := Elems(es, width);
      CutSize(|es|, width);
      assert b[..width] == Le(es[0], width) && b[width..] == Elems(es[1..], width);
      NumberOfLe(es[0], width);
      CutElems(es[1..], width);
    }
  }

  /** A string must be below 65536 bytes, and a vector of bytes must be read into one of its length. */
  predicate Returns(v: Item, x: Item) {
    (x.Text? ==> |x.text| < MAX_TEXT) && (x.Raw? && v.Raw? ==> |v.bytes| == |x.bytes|)
  }

  /** One item comes back into a variable of its type exactly under these two conditions. */
  lemma OneBackIff(v: Item, x: Item, rest: seq<byte>, junk: nat)
    requires Typed(x) && SameType(v, x)
    ensures var r := Decode(v, Encode(x) + rest, junk);
      && (Returns(v, x) ==> r == (x, |Encode(x)|))
      && (r.0 == x ==> Returns(v, x))
  {
    Limits();
    hide Limit, Number, Le;
    match x
    case Num(w, n) => NumBack(n, w, rest, v.value);
    case Text(t) => TextBack(t, rest, junk);
    case Vector(w, es) => VectorBack(w, es, v.elems, rest, junk);
    case Raw(b) =>
      if |v.bytes| == |b| { assert (b + rest)[..|b|] + v.bytes[|b|..] == b; }
  }

  lemma TextBack(t: seq<byte>, rest: seq<byte>, junk: nat)
    ensures var r := Decode(Text([]), Encode(Text(t)) + rest, junk);
      && (|t| < MAX_TEXT ==> r == (Text(t), 2 + |t|))
      && (r.0 == Text(t) ==> |t| < MAX_TEXT)
  {
    Limits();
    hide Limit, Number, Le, NumIn;
    var l := |t| % MAX_TEXT;
    assert Encode(Text(t)) + rest == Le(l, 2) + (t + rest);
    NumBack(l, 2, t + rest, junk);
    assert (Le(l, 2) + (t + rest))[2..2 + l] == (t + rest)[..l];
    assert l == |t| ==> (t + rest)[..l] == t;
  }

  lemma VectorBack(w: nat, es: seq<nat>, olds: seq<nat>, rest: seq<byte>, junk: nat)
    requires Typed(Vector(w, es))
    ensures Decode(Vector(w, olds), Encode(Vector(w, es)) + rest, junk) == (Vector(w, es), 4 + |es| * w)
  {
    Limits();
    hide Limit, Number, Le, NumIn, Resized;
    var s := Encode(Vector(w, es)) + rest;
    assert s == Le(|es|, 4) + (Elems(es, w) + rest);
    NumBack(|es|, 4, Elems(es, w) + rest, junk);
    CutElems(es, w);
    assert s[4..4 + |es| * w] + Elems(Resized(olds, |es|), w)[|es| * w..] == Elems(es, w);
  }

  ghost predicate AllReturn(vs: seq<Item>, xs: seq<Item>)
    requires |vs| == |xs|
  {
    forall i :: 0 <= i < |xs| ==> Returns(vs[i], xs[i])
  }

  /** Reading back into variables of the same types gives the list and uses up the buffer exactly when every
      string is short and every vector of bytes has the length of its variable. */
  lemma {:induction false} AllBackIff(vs: seq<Item>, xs: seq<Item>, junk: nat)
    requires |vs| == |xs| && forall i :: 0 <= i < |xs| ==> Typed(xs[i]) && SameType(vs[i], xs[i])
    ensures DecodeAll(vs, EncodeAll(xs), junk) == (xs, |EncodeAll(xs)|) <==> AllReturn(vs, xs)
  {
    hide Decode, Encode, Typed, SameType, Returns;
    if xs != [] {
      var x, more := xs[0], xs[1..];
      OneBackIff(vs[0], x, EncodeAll(more), junk);
      AllBackIff(vs[1..], more, junk);
      var (y, n) := Decode(vs[0], EncodeAll(xs), junk);
      var (ys, m) := DecodeAll(vs[1..], EncodeAll(xs)[n..], junk);
      assert DecodeAll(vs, EncodeAll(xs), junk) == ([y] + ys, n + m);
      hide DecodeAll;
      if Returns(vs[0], x) {
        assert EncodeAll(xs)[n..] == EncodeAll(more);
        assert AllReturn(vs, xs) <==> AllReturn(vs[1..], more) by { ReturnTail(vs, xs); }
        assert [y] + ys == xs <==> ys == more by { assert xs == [x] + more; assert ([y] + ys)[1..] == ys; }
      } else {
        assert ([y] + ys)[0] != xs[0];
      }
    }
  }

  lemma ReturnTail(vs: seq<Item>, xs: seq<Item>)
    requires |vs| == |xs| > 0 && Returns(vs[0], xs[0])
    ensures AllReturn(vs, xs) <==> AllReturn(vs[1..], xs[1..])
  {
    hide Returns;
    if AllReturn(vs[1..], xs[1..]) {
      forall i | 0 <= i < |xs| ensures Returns(vs[i], xs[i]) {
        assert i > 0 ==> xs[i] == xs[1..][i - 1] && vs[i] == vs[1..][i - 1];
      }
    }
  }

  // ----- reads that are cut short -----

  lemma {:induction false} LeOfNumber(s: seq<byte>)
    ensures Le(Number(s), |s|) == s
  {
    if s != [] {
      var n := Number(s[1..]);
      LowByte(s[0], n);
      LeOfNumber(s[1..]);
      assert Number(s) == s[0] + 256 * n && s == [s[0]] + s[1..];
    }
  }

  lemma LowByte(b: nat, n: nat)
    requires b < 256
    ensures (b + 256 * n) % 256 == b && (b + 256 * n) / 256 == n
  {
  }

  /** A number that is cut short has the bytes that were there in front, and behind them those of its old value. */
  lemma NumberCutShort(rest: seq<byte>, width: nat, was: nat)
    ensures var k := Min(width, |rest|);
      Le(NumIn(rest, width, was), width) == rest[..k] + Le(was, width)[k..]
  {
    var k := Min(width, |rest|);
    LeOfNumber(rest[..k] + Le(was, width)[k..]);
  }

  /** A string that is cut short is what is left of it, and a vector of bytes keeps its old bytes behind that. */
  lemma TextCutShort(t: seq<byte>, n: nat, junk: nat, old_b: seq<byte>)
    requires |t| < MAX_TEXT && n <= |t| && n <= |old_b|
    ensures Decode(Text([]), Encode(Text(t))[..2 + n], junk) == (Text(t[..n]), 2 + n)
    ensures Decode(Raw(old_b), t[..n], junk) == (Raw(t[..n] + old_b[n..]), n)
  {
    Limits();
    hide Limit, Number, Le, NumIn;
    assert Encode(Text(t))[..2 + n] == Le(|t|, 2) + t[..n];
    NumBack(|t|, 2, t[..n], junk);
    assert (Le(|t|, 2) + t[..n])[2..2 + n] == t[..n];
    assert t[..n][..n] == t[..n];
  }

  /** Of a vector that is cut short, every element that is there in full comes back. */
  lemma VectorCutShort(w: nat, es: seq<nat>, olds: seq<nat>, junk: nat, n: nat, i: nat)
    requires Typed(Vector(w, es)) && n <= |es| * w && i < |es| && i * w + w <= n
    ensures var r := Decode(Vector(w, olds), Encode(Vector(w, es))[..4 + n], junk);
      r.1 == 4 + n && |r.0.elems| == |es| && r.0.elems[i] == es[i]
  {
    Limits();
    hide Limit, Number, Le, NumIn, Resized, Cut, Elems;
    var data := Elems(es, w)[..n];
    var s := Encode(Vector(w, es))[..4 + n];
    assert s == Le(|es|, 4) + data;
    NumBack(|es|, 4, data, junk);
    assert s[4..4 + n] == data;
    var whole := data + Elems(Resized(olds, |es|), w)[n..];
    var at := i * w;
    CutAt(whole, w, |es|, i, at);
    ElemsAt(es, w, i, at);
    InFront(Elems(es, w), Elems(Resized(olds, |es|), w), n, at, w);
    NumberOfLe(es[i], w);
  }

  lemma InFront(a: seq<byte>, b: seq<byte>, n: nat, at: nat, width: nat)
    requires at + width <= n <= |a| == |b|
    ensures (a[..n] + b[n..])[at..at + width] == a[at..at + width]
  {
  }

  lemma Fits(i: nat, n: nat, width: nat)
    requires i < n
    ensures 0 <= i * width <= i * width + width <= n * width
  {
    var d := n - i - 1;
    assert n == i + 1 + d;
    assert (i + 1 + d) * width == i * width + width + d * width;
    assert d * width >= 0;
  }

  lemma Slice(data: seq<byte>, width: nat, a: nat)
    requires width + a + width <= |data|
    ensures data[width..][a..a + width] == data[width + a..width + a + width]
  {
  }

  lemma {:induction false} CutAt(data: seq<byte>, width: nat, n: nat, i: nat, at: nat)
    requires |data| == n * width && i < n && at == i * width
    ensures at + width <= |data|
    ensures Cut(data, width, n)[i] == Number(data[at..at + width])
    decreases n
  {
    CutSize(n, width);
    Fits(i, n, width);
    if i == 0 {
      assert Cut(data, width, n)[0] == Number(data[..width]);
    } else {
      assert Cut(data, width, n)[i] == Cut(data[width..], width, n - 1)[i - 1];
      hide Number, Cut;
      CutSize(i, width);
      CutAt(data[width..], width, n - 1, i - 1, at - width);
      Slice(data, width, at - width);
    }
  }

  lemma {:induction false} ElemsAt(es: seq<nat>, width: nat, i: nat, at: nat)
    requires i < |es| && at == i * width
    ensures at + width <= |Elems(es, width)|
    ensures Elems(es, width)[at..at + width] == Le(es[i], width)
  {
    Fits(i, |es|, width);
    hide Le;
    if i > 0 {
      CutSize(i, width);
      ElemsAt(es[1..], width, i - 1, at - width);
      Shifted(Le(es[0], width), Elems(es[1..], width), at - width, width);
    }
  }

  lemma Shifted(a: seq<byte>, b: seq<byte>, at: nat, width: nat)
    requires |a| == width && at + width <= |b|
    ensures (a + b)[at + width..at + width + width] == b[at..at + width]
  {
  }

  /** Elements that begin behind what was read come from the old ones. */
  lemma CutOver(a: seq<byte>, es: seq<nat>, w: nat, i: nat, at: nat)
    requires i < |es| && |a| <= at == i * w && at <= |Elems(es, w)| && es[i] < Limit(w)
    ensures Cut(a + Elems(es, w)[|a|..], w, |es|)[i] == es[i]
  {
    hide Cut, Elems, Number, Le, Limit;
    var b := Elems(es, w);
    ElemsAt(es, w, i, at);
    Behind(a, b, at, w);
    var data := a + b[|a|..];
    assert |data| == |b|;
    CutAt(data, w, |es|, i, at);
    NumberOfLe(es[i], w);
  }

  /** Of a vector that is cut short, every element that begins behind the last byte keeps its old value, or is 0 if
      the variable did not have so many. */
  lemma CutShortKeepsOld(w: nat, olds: seq<nat>, rest: seq<byte>, junk: nat, i: nat)
    requires forall j :: 0 <= j < |olds| ==> olds[j] < Limit(w)
    requires i < NumIn(rest, 4, junk) && |rest| - Min(4, |rest|) <= i * w
    ensures var r := Decode(Vector(w, olds), rest, junk).0.elems;
      |r| == NumIn(rest, 4, junk) && r[i] == if i < |olds| then olds[i] else 0
  {
    var n, k := NumIn(rest, 4, junk), Min(4, |rest|);
    var es := Resized(olds, n);
    ResizedAt(olds, n, i);
    ShortOf(n, w, i, |rest| - k);
    hide NumIn, Resized, Cut, Elems, Limit, Number, Le, Min;
    CutOver(rest[k..], es, w, i, i * w);
    assert rest[k..k + (|rest| - k)] == rest[k..];
  }

  lemma ShortOf(n: nat, width: nat, i: nat, left: nat)
    requires i < n && left <= i * width
    ensures i * width <= n * width && Min(n * width, left) == left
  {
    Fits(i, n, width);
  }

  lemma Behind(a: seq<byte>, b: seq<byte>, at: nat, width: nat)
    requires |a| <= at <= at + width <= |b|
    ensures (a + b[|a|..])[at..at + width] == b[at..at + width]
  {
  }

  lemma ResizedAt(es: seq<nat>, n: nat, i: nat)
    requires i < n
    ensures Resized(es, n)[i] == if i < |es| then es[i] else 0
  {
  }

  // ----- frames -----

  /** eos: the length field in front gets the size of the payload, in 16 bits. */
  function WithLength(buf: seq<byte>): seq<byte> {
    if |buf| < 2 then buf else Le((|buf| - 4) % MAX_TEXT, 2) + buf[2..]
  }

  function FrameOf(magic: byte, cmd: byte, payload: seq<byte>): seq<byte> {
    [0, 0, magic, cmd] + payload
  }

  /** A finished frame tells its payload's length exactly when that is below 65536; the rest is untouched. */
  lemma FrameLengthIff(magic: byte, cmd: byte, payload: seq<byte>)
    ensures var f := WithLength(FrameOf(magic, cmd, payload));
      && |f| == 4 + |payload| && f[2] == magic && f[3] == cmd && f[4..] == payload
      && (Number(f[..2]) == |payload| <==> |payload| < MAX_TEXT)
  {
    var f := WithLength(FrameOf(magic, cmd, payload));
    Limits();
    hide Limit, Number, Le;
    NumberOfLe(|payload| % MAX_TEXT, 2);
    assert f[..2] == Le(|payload| % MAX_TEXT, 2);
  }

  // ----- the stream -----

  class Stream {
    var buf: seq<byte>
    var pos: nat

    ghost predicate Valid()
      reads this
    {
      pos <= |buf|
    }

    function Left(): nat
      requires Valid()
      reads this
    {
      |buf| - pos
    }

    constructor (cmd: byte, magic: byte)
      ensures Valid() && pos == 0 && buf == FrameOf(magic, cmd, [])
    {
      pos := 0;
      buf := [0, 0, magic, cmd];
    }

    method Append(data: seq<byte>)
      requires Valid()
      modifies this`buf
      ensures Valid() && buf == old(buf) + data
    {
      buf := buf + data;
    }

    /** Reads up to `len` bytes. */
    method Read(len: nat) returns (data: seq<byte>)
      requires Valid()
      modifies this`pos
      ensures Valid() && data == old(buf[pos..])[..Min(len, old(Left()))] && pos == old(pos) + |data|
    {
      var n := len;
      if pos + n > |buf| { n := |buf| - pos; }
      if n == 0 { return []; }
      data := buf[pos..pos + n];
      pos := pos + n;
    }

    method AppendBoth(a: seq<byte>, b: seq<byte>)
      requires Valid()
      modifies this`buf
      ensures Valid() && buf == old(buf) + (a + b)
    {
      Append(a);
      Append(b);
      assert old(buf) + a + b == old(buf) + (a + b);
    }

    /** operator<< */
    method Put(x: Item)
      requires Valid()
      modifies this`buf
      ensures Valid() && buf == old(buf) + Encode(x)
    {
      hide Le, Elems;
      match x
      case Num(w, v) => Append(Le(v, w));
      case Text(t) => AppendBoth(Le(|t| % MAX_TEXT, 2), t);
      case Vector(w, es) => AppendBoth(Le(|es|, 4), Elems(es, w));
      case Raw(b) => Append(b);
    }

    /** operator>> for a number over its old value */
    method GetNum(width: nat, was: nat) returns (v: nat)
      requires Valid()
      modifies this`pos
      ensures Valid() && v == NumIn(old(buf[pos..]), width, was) && pos == old(pos) + Min(width, old(Left()))
    {
      var data := Read(width);
      v := Number(data + Le(was, width)[|data|..]);
    }

    /** operator>> into variable v */
    method Get(v: Item, junk: nat) returns (x: Item)
      requires Valid()
      modifies this`pos
      ensures Valid() && var r := Decode(v, old(buf[pos..]), junk); x == r.0 && pos == old(pos) + r.1
    {
      hide NumIn, Cut, Elems, Resized;
      match v
      case Num(w, was) =>
        var n := GetNum(w, was);
        x := Num(w, n);
      case Text(_) =>
        x := GetText(v, junk);
      case Vector(w, es) =>
        x := GetVector(w, es, junk);
      case Raw(b) =>
        var data := Read(|b|);
        x := Raw(data + b[|data|..]);
    }

    method GetText(v: Item, junk: nat) returns (x: Item)
      requires Valid() && v.Text?
      modifies this`pos
      ensures Valid() && var r := Decode(v, old(buf[pos..]), junk); x == r.0 && pos == old(pos) + r.1
    {
      hide NumIn;
      ghost var rest := buf[pos..];
      var l := GetNum(2, junk);
      if l > Left() { l := Left(); }
      ghost var k := Min(2, |rest|);
      assert buf[pos..pos + l] == rest[k..k + l];
      x := Text(buf[pos..pos + l]);
      pos := pos + l;
    }

    method GetVector(w: nat, es: seq<nat>, junk: nat) returns (x: Item)
      requires Valid()
      modifies this`pos
      ensures Valid() && var r := Decode(Vector(w, es), old(buf[pos..]), junk); x == r.0 && pos == old(pos) + r.1
    {
      hide NumIn, Cut, Elems, Resized;
      ghost var rest := buf[pos..];
      var n := GetNum(4, junk);
      ghost var k := Min(4, |rest|);
      assert buf[pos..] == rest[k..];
      var v := Resized(es, n);
      var data := Read(n * w);
      assert data == rest[k..k + |data|];
      x := Vector(w, Cut(data + Elems(v, w)[|data|..], w, n));
    }

    /** eos */
    method Eos()
      requires Valid()
      modifies this`buf
      ensures Valid() && buf == WithLength(old(buf)) && |buf| == |old(buf)|
    {
      if |buf| >= 2 { buf := Le((|buf| - 4) % MAX_TEXT, 2) + buf[2..]; }
    }
  }
}

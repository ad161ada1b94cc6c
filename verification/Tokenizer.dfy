/** StringTokenizer: splitting a string at separator characters, with trimming and dropping of empty tokens. */
module Tokenizer {
  import opened Common

  const SPACES: set<char> := {' ', '\t', '\n', '\U{0B}', '\U{0C}', '\r'}

  predicate IsSpace(c: char) { c in SPACES }

  // ----- the plain tokens -----

  /** A token and the separator behind it, if there is one. */
  datatype Piece = Piece(text: string, sep: string)

  /** What is between separators; an empty piece at the very end does not count. */
  function Pieces(s: string, seps: set<char>): seq<Piece>
    decreases |s|
  {
    if s == "" then []
    else
      var n := Run(s, seps);
      if n == |s| then [Piece(s, "")] else [Piece(s[..n], [s[n]])] + Pieces(s[n + 1..], seps)
  }

  function Texts(ps: seq<Piece>): seq<string> {
    seq(|ps|, i requires 0 <= i < |ps| => ps[i].text)
  }

  function Rebuilt(ps: seq<Piece>): string {
    if ps == [] then "" else ps[0].text + (ps[0].sep + Rebuilt(ps[1..]))
  }

  /** Only the last piece may be without a separator, and then it is not empty. */
  ghost predicate WellCut(ps: seq<Piece>, seps: set<char>) {
    forall i :: 0 <= i < |ps| ==>
      && Free(ps[i].text, seps)
      && (if ps[i].sep == "" then i == |ps| - 1 && ps[i].text != "" else |ps[i].sep| == 1 && ps[i].sep[0] in seps)
  }

  /** What follows the first piece. */
  function AfterPiece(s: string, seps: set<char>): (r: string)
    requires s != ""
    ensures |r| < |s|
  {
    var n := Run(s, seps);
    if n < |s| then s[n + 1..] else ""
  }

  function FirstPiece(s: string, seps: set<char>): Piece {
    var n := Run(s, seps);
    Piece(s[..n], if n < |s| then [s[n]] else "")
  }

  lemma TextsStep(p: Piece, ps: seq<Piece>)
    ensures Texts([p] + ps) == [p.text] + Texts(ps)
  {
  }

  lemma PiecesStep(s: string, seps: set<char>)
    requires s != ""
    ensures Pieces(s, seps) == [FirstPiece(s, seps)] + Pieces(AfterPiece(s, seps), seps)
    ensures Texts(Pieces(s, seps)) == [FirstPiece(s, seps).text] + Texts(Pieces(AfterPiece(s, seps), seps))
  {
    hide Run, Texts, Free;
    assert s[..|s|] == s && Pieces("", seps) == [];
    assert Pieces(s, seps) == [FirstPiece(s, seps)] + Pieces(AfterPiece(s, seps), seps);
    TextsStep(FirstPiece(s, seps), Pieces(AfterPiece(s, seps), seps));
  }

  lemma FirstPieceParts(s: string, seps: set<char>)
    requires s != ""
    ensures var p, rest := FirstPiece(s, seps), AfterPiece(s, seps);
      && s == p.text + (p.sep + rest) && Free(p.text, seps)
      && (if p.sep == "" then rest == "" && p.text == s else |p.sep| == 1 && p.sep[0] in seps)
  {
    var n := Run(s, seps);
    assert s[..|s|] == s;
    if n < |s| { assert s == s[..n] + ([s[n]] + s[n + 1..]); }
  }

  lemma WellCutMore(p: Piece, ps: seq<Piece>, seps: set<char>)
    requires WellCut(ps, seps) && Free(p.text, seps)
    requires if p.sep == "" then ps == [] && p.text != "" else |p.sep| == 1 && p.sep[0] in seps
    ensures WellCut([p] + ps, seps) && Rebuilt([p] + ps) == p.text + (p.sep + Rebuilt(ps))
  {
    assert ([p] + ps)[1..] == ps;
    hide Rebuilt;
  }

  lemma {:induction false} PiecesRebuild(s: string, seps: set<char>)
    ensures Rebuilt(Pieces(s, seps)) == s && WellCut(Pieces(s, seps), seps)
    decreases |s|
  {
    if s != "" {
      hide Run, Pieces, FirstPiece, WellCut, Rebuilt, Free;
      PiecesStep(s, seps);
      FirstPieceParts(s, seps);
      PiecesRebuild(AfterPiece(s, seps), seps);
      EmptyPieces(seps);
      WellCutMore(FirstPiece(s, seps), Pieces(AfterPiece(s, seps), seps), seps);
    }
  }

  lemma EmptyPieces(seps: set<char>)
    ensures Pieces("", seps) == []
  {
  }

  /** There is only one way to cut a string like that. */
  lemma {:induction false} OnlyOneCut(ps: seq<Piece>, seps: set<char>)
    requires WellCut(ps, seps)
    ensures Pieces(Rebuilt(ps), seps) == ps
  {
    if ps != [] {
      var p, more := ps[0], ps[1..];
      var s := Rebuilt(ps);
      if p.sep == "" {
        assert |ps| == 1 && s == p.text + "" && p.text + "" == p.text;
        RunOf(p.text, "", seps);
      } else {
        OnlyOneCut(more, seps) by {
          forall i | 0 <= i < |more| ensures more[i] == ps[i + 1] {}
        }
        FirstCut(p, Rebuilt(more), seps);
        assert ps == [p] + more;
      }
    }
  }

  lemma FirstCut(p: Piece, rest: string, seps: set<char>)
    requires Free(p.text, seps) && |p.sep| == 1 && p.sep[0] in seps
    ensures Pieces(p.text + (p.sep + rest), seps) == [p] + Pieces(rest, seps)
  {
    var s := p.text + (p.sep + rest);
    RunOf(p.text, p.sep + rest, seps);
    hide Run, Free;
    assert s[|p.text|] == p.sep[0] && s[..|p.text|] == p.text && s[|p.text| + 1..] == rest;
    assert [p.sep[0]] == p.sep;
  }

  // ----- the options -----

  function TrimLeft(s: string): (r: string)
    ensures |r| <= |s| && (r == "" || !IsSpace(r[0]))
  {
    if s != "" && IsSpace(s[0]) then TrimLeft(s[1..]) else s
  }

  function TrimRight(s: string): (r: string)
    ensures |r| <= |s| && r == s[..|r|] && (r == "" || !IsSpace(r[|r| - 1]))
  {
    if s != "" && IsSpace(s[|s| - 1]) then TrimRight(s[..|s| - 1]) else s
  }

  function Trim(s: string): string { TrimRight(TrimLeft(s)) }

  function TrimAll(ts: seq<string>): seq<string> {
    seq(|ts|, i requires 0 <= i < |ts| => Trim(ts[i]))
  }

  function DropEmpty(ts: seq<string>): seq<string> {
    if ts == [] then [] else (if ts[0] == "" then [] else [ts[0]]) + DropEmpty(ts[1..])
  }

  /** The tokens the constructor collects from here on. */
  function Tokens(s: string, seps: set<char>, trim: bool, ignoreEmpty: bool): seq<string>
    decreases |s|
  {
    if s == "" then []
    else
      var t := if trim then TrimLeft(s) else s;
      var n := Run(t, seps);
      var token := if trim then TrimRight(t[..n]) else t[..n];
      (if ignoreEmpty && token == "" then [] else [token])
      + Tokens(if n < |t| then t[n + 1..] else "", seps, trim, ignoreEmpty)
  }

  lemma TokensStep(s: string, seps: set<char>, ignoreEmpty: bool)
    requires s != ""
    ensures var token := FirstPiece(s, seps).text;
      Tokens(s, seps, false, ignoreEmpty) ==
      (if ignoreEmpty && token == "" then [] else [token]) + Tokens(AfterPiece(s, seps), seps, false, ignoreEmpty)
  {
    hide Run;
  }

  /** Without options the tokens are the pieces. */
  lemma {:induction false} PlainTokens(s: string, seps: set<char>)
    ensures Tokens(s, seps, false, false) == Texts(Pieces(s, seps))
    decreases |s|
  {
    hide FirstPiece, AfterPiece;
    if s != "" {
      TokensStep(s, seps, false);
      PiecesStep(s, seps);
      PlainTokens(AfterPiece(s, seps), seps);
      hide Tokens, Pieces, Texts;
    }
  }

  /** TOK_IGNORE_EMPTY drops the empty ones. */
  lemma {:induction false} IgnoredEmpty(s: string, seps: set<char>)
    ensures Tokens(s, seps, false, true) == DropEmpty(Texts(Pieces(s, seps)))
    decreases |s|
  {
    hide FirstPiece, AfterPiece;
    if s != "" {
      TokensStep(s, seps, true);
      PiecesStep(s, seps);
      IgnoredEmpty(AfterPiece(s, seps), seps);
      hide Tokens, Pieces, Texts;
      var p, more := FirstPiece(s, seps), Texts(Pieces(AfterPiece(s, seps), seps));
      assert ([p.text] + more)[1..] == more;
    }
  }

  // ----- trimming -----

  predicate AllSpace(s: string) { TrimLeft(s) == "" }

  /** Trimming on the left runs over this piece's separator. */
  predicate Swallowed(p: Piece) {
    p.sep != "" && AllSpace(p.text) && IsSpace(p.sep[0])
  }

  ghost predicate Swallows(ps: seq<Piece>) {
    exists i :: 0 <= i < |ps| - 1 && Swallowed(ps[i])
  }

  lemma {:induction false} TrimLeftOf(a: string, t: string)
    ensures TrimLeft(a + t) == if AllSpace(a) then TrimLeft(t) else TrimLeft(a) + t
  {
    if a == "" {
      assert a + t == t;
    } else {
      assert (a + t)[1..] == a[1..] + t && (a + t)[0] == a[0];
      TrimLeftOf(a[1..], t);
    }
  }

  lemma {:induction false} TrimLeftFree(a: string, seps: set<char>)
    requires Free(a, seps)
    ensures Free(TrimLeft(a), seps)
  {
    if a != "" && IsSpace(a[0]) { TrimLeftFree(a[1..], seps); }
  }

  /** The token at t, and those behind it, once the spaces in front are gone. */
  function TokensAt(t: string, seps: set<char>, ignoreEmpty: bool): seq<string> {
    var n := Run(t, seps);
    var token := TrimRight(t[..n]);
    (if ignoreEmpty && token == "" then [] else [token])
    + Tokens(if n < |t| then t[n + 1..] else "", seps, true, ignoreEmpty)
  }

  lemma TrimsFirst(s: string, seps: set<char>, ignoreEmpty: bool)
    requires s != ""
    ensures Tokens(s, seps, true, ignoreEmpty) == TokensAt(TrimLeft(s), seps, ignoreEmpty)
  {
    hide Run, TrimLeft, TrimRight;
  }

  /** What is left after trimming in front of the first piece. */
  lemma TrimmedStart(s: string, seps: set<char>)
    requires s != ""
    ensures var p, rest := FirstPiece(s, seps), AfterPiece(s, seps);
      TrimLeft(s) ==
      if Swallowed(p) then TrimLeft(rest)
      else TrimLeft(p.text) + (p.sep + rest)
  {
    var p, rest := FirstPiece(s, seps), AfterPiece(s, seps);
    FirstPieceParts(s, seps);
    TrimLeftOf(p.text, p.sep + rest);
    TrimLeftOf(p.sep, rest);
    OneSeparator(p, rest, seps);
    assert "" + (p.sep + rest) == p.sep + rest;
    hide FirstPiece, AfterPiece, TrimLeft;
  }

  lemma OneTokenAt(a: string, sep: string, rest: string, seps: set<char>, ignoreEmpty: bool)
    requires Free(a, seps) && if sep == "" then rest == "" else |sep| == 1 && sep[0] in seps
    ensures TokensAt(a + (sep + rest), seps, ignoreEmpty) ==
      (if ignoreEmpty && TrimRight(a) == "" then [] else [TrimRight(a)]) + Tokens(rest, seps, true, ignoreEmpty)
  {
    OneToken(a, sep, rest, seps);
    hide Run, Tokens, TrimRight;
  }

  /** What the constructor does at the start of a token, with trimming, seen from the first piece. */
  lemma TrimmedStep(s: string, seps: set<char>, ignoreEmpty: bool)
    requires s != ""
    ensures var p, rest := FirstPiece(s, seps), AfterPiece(s, seps);
      Tokens(s, seps, true, ignoreEmpty) ==
      if Swallowed(p) then
        if rest == "" then if ignoreEmpty then [] else [""]
        else Tokens(rest, seps, true, ignoreEmpty)
      else
        (if ignoreEmpty && Trim(p.text) == "" then [] else [Trim(p.text)]) + Tokens(rest, seps, true, ignoreEmpty)
  {
    var p, rest := FirstPiece(s, seps), AfterPiece(s, seps);
    TrimsFirst(s, seps, ignoreEmpty);
    TrimmedStart(s, seps);
    FirstPieceParts(s, seps);
    TrimLeftFree(p.text, seps);
    OneTokenAt(TrimLeft(p.text), p.sep, rest, seps, ignoreEmpty);
    NothingAt(seps, ignoreEmpty);
    if rest != "" { TrimsFirst(rest, seps, ignoreEmpty); }
    hide FirstPiece, AfterPiece, TrimRight, Run, Tokens, TokensAt, Swallowed;
  }

  lemma NothingAt(seps: set<char>, ignoreEmpty: bool)
    ensures TokensAt("", seps, ignoreEmpty) == (if ignoreEmpty then [] else [""]) && TrimLeft("") == ""
  {
  }

  lemma OneSeparator(p: Piece, rest: string, seps: set<char>)
    requires if p.sep == "" then rest == "" else |p.sep| == 1 && p.sep[0] in seps
    ensures AllSpace(p.sep) <==> p.sep == "" || IsSpace(p.sep[0])
    ensures p.sep != "" && !IsSpace(p.sep[0]) ==>
      TrimLeft(p.sep) == p.sep && Run(p.sep + rest, seps) == 0 && (p.sep + rest)[1..] == rest
    ensures TrimLeft("") == "" && Run("", seps) == 0 && TrimRight("") == ""
  {
    if p.sep != "" { assert p.sep == [p.sep[0]] && p.sep[1..] == ""; }
  }

  lemma OneToken(a: string, sep: string, rest: string, seps: set<char>)
    requires Free(a, seps) && if sep == "" then rest == "" else |sep| == 1 && sep[0] in seps
    ensures var t := a + (sep + rest);
      && Run(t, seps) == |a| && t[..|a|] == a
      && (if |a| < |t| then sep != "" && t[|a| + 1..] == rest else rest == "")
  {
    RunOf(a, sep + rest, seps);
  }

  // ----- what the options come to -----

  lemma {:induction false} TrimmedAndIgnored(s: string, seps: set<char>)
    ensures Tokens(s, seps, true, true) == DropEmpty(TrimAll(Texts(Pieces(s, seps))))
    decreases |s|
  {
    if s != "" {
      var p, rest := FirstPiece(s, seps), AfterPiece(s, seps);
      TrimmedStep(s, seps, true);
      TrimmedAndIgnored(rest, seps);
      PiecesStep(s, seps);
      SwallowedIsEmpty(p);
      hide FirstPiece, AfterPiece, Tokens, Pieces, Texts, Swallowed, Trim;
      DropFirst(p.text, Texts(Pieces(rest, seps)));
      assert rest == "" ==> Tokens(rest, seps, true, true) == [] by { NoTokens(seps); }
    }
  }

  lemma NoTokens(seps: set<char>)
    ensures forall trim, ignoreEmpty :: Tokens("", seps, trim, ignoreEmpty) == []
  {
  }

  lemma SwallowedIsEmpty(p: Piece)
    ensures Swallowed(p) ==> Trim(p.text) == ""
  {
  }

  lemma DropFirst(t: string, ts: seq<string>)
    ensures DropEmpty(TrimAll([t] + ts)) == (if Trim(t) == "" then [] else [Trim(t)]) + DropEmpty(TrimAll(ts))
  {
    assert TrimAll([t] + ts) == [Trim(t)] + TrimAll(ts);
    assert ([Trim(t)] + TrimAll(ts))[1..] == TrimAll(ts);
    hide Trim;
  }

  /** Trimming never makes more tokens. */
  lemma {:induction false} TrimmedCount(s: string, seps: set<char>)
    ensures |Tokens(s, seps, true, false)| <= |Pieces(s, seps)|
    decreases |s|
  {
    if s != "" {
      TrimmedStep(s, seps, false);
      TrimmedCount(AfterPiece(s, seps), seps);
      PiecesStep(s, seps);
      hide FirstPiece, AfterPiece, Tokens, Pieces, Swallowed;
    }
  }

  /** TOK_TRIM trims each token exactly when no separator is swallowed with the spaces in front of a later token. */
  lemma {:induction false} TrimmedIff(s: string, seps: set<char>)
    ensures Tokens(s, seps, true, false) == TrimAll(Texts(Pieces(s, seps))) <==> !Swallows(Pieces(s, seps))
    decreases |s|
  {
    if s != "" {
      var p, rest := FirstPiece(s, seps), AfterPiece(s, seps);
      TrimmedStep(s, seps, false);
      TrimmedIff(rest, seps);
      PiecesStep(s, seps);
      SwallowedIsEmpty(p);
      NoTokens(seps);
      PieceOrNone(rest, seps);
      TrimmedCount(rest, seps);
      hide FirstPiece, AfterPiece, Tokens, Pieces, Texts, Swallowed, Trim;
      TrimFirst(p, Pieces(rest, seps));
      SwallowsMore(p, Pieces(rest, seps));
      hide Swallows, TrimAll;
      var mine, wanted := Tokens(rest, seps, true, false), TrimAll(Texts(Pieces(rest, seps)));
      SameTail(Trim(p.text), mine, wanted);
    }
  }

  lemma SameTail(a: string, ts: seq<string>, us: seq<string>)
    ensures [a] + ts == [a] + us <==> ts == us
    ensures ts == [a] + us ==> |ts| == |us| + 1
  {
    assert ([a] + ts)[1..] == ts && ([a] + us)[1..] == us;
  }

  lemma PieceOrNone(s: string, seps: set<char>)
    ensures Pieces(s, seps) == [] <==> s == ""
  {
  }

  lemma TrimFirst(p: Piece, ps: seq<Piece>)
    ensures TrimAll([p.text] + Texts(ps)) == [Trim(p.text)] + TrimAll(Texts(ps)) && |Texts(ps)| == |ps|
  {
  }

  lemma SwallowsMore(p: Piece, ps: seq<Piece>)
    ensures Swallows([p] + ps) <==> (ps != [] && Swallowed(p)) || Swallows(ps)
  {
    var qs := [p] + ps;
    if ps != [] && Swallowed(p) { assert Swallowed(qs[0]); }
    if Swallows(ps) {
      var i :| 0 <= i < |ps| - 1 && Swallowed(ps[i]);
      assert Swallowed(qs[i + 1]);
    }
    if Swallows(qs) {
      var i :| 0 <= i < |qs| - 1 && Swallowed(qs[i]);
      assert i > 0 ==> Swallowed(ps[i - 1]);
    }
  }

  /** So it does whenever no separator is a space. */
  lemma TrimmedWithoutSpaces(s: string, seps: set<char>)
    requires forall c :: c in seps ==> !IsSpace(c)
    ensures Tokens(s, seps, true, false) == TrimAll(Texts(Pieces(s, seps)))
  {
    TrimmedIff(s, seps);
    PiecesRebuild(s, seps);
  }

  /** With a space as separator, "a  b" loses its empty token in the middle. */
  lemma SwallowedExample()
    ensures Tokens("a  b", {' '}, true, false) != TrimAll(Texts(Pieces("a  b", {' '})))
  {
    var ps := [Piece("a", " "), Piece("", " "), Piece("b", "")];
    TwoSpaces(ps);
    OnlyOneCut(ps, {' '});
    assert Swallowed(ps[1]);
    hide Run, Pieces, Tokens, Rebuilt;
    TrimmedIff("a  b", {' '});
  }

  lemma TwoSpaces(ps: seq<Piece>)
    requires ps == [Piece("a", " "), Piece("", " "), Piece("b", "")]
    ensures Rebuilt(ps) == "a  b" && WellCut(ps, {' '})
  {
    assert ps[1..] == [Piece("", " "), Piece("b", "")] && ps[1..][1..] == [Piece("b", "")] && ps[1..][1..][1..] == [];
    assert Rebuilt(ps[1..][1..]) == "b" + ("" + "");
  }

  // ----- the constructor's loops -----

  method SkipSpaces(str: string, from: nat) returns (it: nat)
    requires from <= |str|
    ensures from <= it <= |str| && str[it..] == TrimLeft(str[from..])
  {
    it := from;
    while it != |str| && IsSpace(str[it])
      invariant from <= it <= |str| && TrimLeft(str[it..]) == TrimLeft(str[from..])
    {
      assert str[it..][1..] == str[it + 1..];
      it := it + 1;
    }
  }

  method FindSeparator(str: string, from: nat, seps: set<char>) returns (it: nat)
    requires from <= |str|
    ensures from <= it <= |str| && it == from + Run(str[from..], seps)
  {
    it := from;
    while it != |str| && str[it] !in seps
      invariant from <= it <= |str| && Free(str[from..it], seps)
    {
      assert str[from..it + 1] == str[from..it] + [str[it]];
      it := it + 1;
    }
    assert str[from..] == str[from..it] + str[it..];
    RunOf(str[from..it], str[it..], seps);
  }

  /** The end of the token without the spaces behind it; a token in front of which spaces were skipped. */
  method BackOverSpaces(str: string, from: nat, to: nat) returns (it: nat)
    requires from <= to <= |str|
    ensures from <= it <= to && str[from..it] == TrimRight(str[from..to])
  {
    hide TrimRight, IsSpace;
    it := to;
    if it == from {
      TrimNothing(str, from);
    } else {
      it := it - 1;
      while it != from && IsSpace(str[it])
        invariant from <= it < to && TrimRight(str[from..it + 1]) == TrimRight(str[from..to])
      {
        TrimRightStep(str, from, it);
        it := it - 1;
      }
      TrimRightStep(str, from, it);
      TrimNothing(str, from);
      if !IsSpace(str[it]) { it := it + 1; }
    }
  }

  lemma TrimNothing(str: string, from: nat)
    requires from <= |str|
    ensures str[from..from] == "" && TrimRight("") == ""
  {
  }

  lemma TrimRightStep(str: string, from: nat, it: nat)
    requires from <= it < |str|
    ensures TrimRight(str[from..it + 1]) == if IsSpace(str[it]) then TrimRight(str[from..it]) else str[from..it + 1]
  {
    assert str[from..it + 1][..it - from] == str[from..it] && str[from..it + 1][it - from] == str[it];
  }

  lemma TokenAt(str: string, start: nat, it1: nat, it2: nat, it3: nat, seps: set<char>, trim: bool, ignoreEmpty: bool)
    requires start <= it1 <= it3 <= it2 <= |str| && start < |str|
    requires if trim then str[it1..] == TrimLeft(str[start..]) else it1 == start
    requires it2 == it1 + Run(str[it1..], seps)
    requires if trim then str[it1..it3] == TrimRight(str[it1..it2]) else it3 == it2
    ensures Tokens(str[start..], seps, trim, ignoreEmpty) ==
      (if ignoreEmpty && it3 == it1 then [] else [str[it1..it3]])
      + Tokens(str[if it2 == |str| then it2 else it2 + 1..], seps, trim, ignoreEmpty)
  {
    hide Run, TrimLeft, TrimRight;
    var t := str[it1..];
    assert t[..it2 - it1] == str[it1..it2];
    assert it2 < |str| ==> t[it2 - it1 + 1..] == str[it2 + 1..];
  }

  lemma MoreTokens(a: seq<string>, b: seq<string>, c: seq<string>)
    ensures a + (b + c) == (a + b) + c
    ensures a + [] == a
  {
  }

  class StringTokenizer {
    var tokens: seq<string>

    /** Three iterators: it1 at the start of a token, it2 at its separator, it3 at its end. */
    constructor (str: string, separators: string, trim: bool, ignoreEmpty: bool)
      ensures tokens == Tokens(str, SetOf(separators), trim, ignoreEmpty)
    {
      tokens := [];
      new;
      hide Run, TrimLeft, TrimRight, Tokens, SetOf;
      var seps := SetOf(separators);
      NoTokens(seps);
      var it1 := 0;
      while it1 != |str|
        invariant it1 <= |str|
        invariant tokens + Tokens(str[it1..], seps, trim, ignoreEmpty) == Tokens(str, seps, trim, ignoreEmpty)
        decreases |str| - it1
      {
        ghost var start, before := it1, tokens;
        if trim { it1 := SkipSpaces(str, it1); }
        var it2 := FindSeparator(str, it1, seps);
        var it3 := it2;
        if trim { it3 := BackOverSpaces(str, it1, it2); }
        if ignoreEmpty {
          if it3 != it1 { tokens := tokens + [str[it1..it3]]; }
        } else {
          tokens := tokens + [str[it1..it3]];
        }
        TokenAt(str, start, it1, it2, it3, seps, trim, ignoreEmpty);
        ghost var token := if ignoreEmpty && it3 == it1 then [] else [str[it1..it3]];
        it1 := it2;
        if it1 != |str| { it1 := it1 + 1; }
        MoreTokens(before, token, Tokens(str[it1..], seps, trim, ignoreEmpty));
      }
    }
  }

  function SetOf(s: string): set<char> { set c | c in s }
}

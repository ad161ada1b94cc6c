/** VMS syntax: node::device:[dir.dir]name;version, with "-" for the parent directory. */
module PathVms {
  import opened Common
  import opened PathSpec
  import opened PathText

  const HEAD: set<char> := {':', '[', ';'}
  const DEVICE: set<char> := {':', ';'}
  const ELEMENT: set<char> := {'.', ']'}
  const VERSION: set<char> := {';'}

  // ----- before the brackets -----

  datatype Heading = Heading(node: string, device: string, absolute: bool, name: string, rest: string)

  /** The node, or the first device, or the start of a name. */
  function Head(s: string): Heading {
    var n := Run(s, HEAD);
    if n < |s| && s[n] == ':' then
      if n + 1 < |s| && s[n + 1] == ':' then Heading(s[..n], "", true, "", s[n + 2..])
      else Heading("", s[..n], true, "", s[n + 1..])
    else Heading("", "", false, s[..n], s[n..])
  }

  /** A device after the node, or the rest of a name. */
  function Second(o: Heading): Heading {
    if o.rest == "" || o.device != "" || o.rest[0] == '[' then o
    else
      var m := Run(o.rest, DEVICE);
      var name := o.name + o.rest[..m];
      if m < |o.rest| && o.rest[m] == ':' then
        o.(device := name, absolute := true, name := "", rest := o.rest[m + 1..])
      else o.(name := name, rest := o.rest[m..])
  }

  // ----- inside the brackets -----

  /** The elements up to the closing bracket: names, "-", and empty ones that count for nothing. */
  function Elements(t: string): seq<string>
    decreases |t|
  {
    if t == "" || t[0] == ']' then []
    else if t[0] == '-' then ["-"] + Elements(t[1..])
    else
      var n := Run(t, ELEMENT);
      [t[..n]] + Elements(if n < |t| && t[n] != ']' then t[n + 1..] else t[n..])
  }

  /** What is left from the closing bracket on. */
  function AfterElements(t: string): (r: string)
    ensures |r| <= |t|
    decreases |t|
  {
    if t == "" || t[0] == ']' then t
    else if t[0] == '-' then AfterElements(t[1..])
    else
      var n := Run(t, ELEMENT);
      AfterElements(if n < |t| && t[n] != ']' then t[n + 1..] else t[n..])
  }

  /** One element of the first bracket; above the top "-" leaves "..", whether or not the path is absolute. */
  function Up(dirs: seq<string>, e: string): seq<string> {
    if e == "" then dirs
    else if e == "-" then
      if dirs == [] || dirs[|dirs| - 1] == ".." then dirs + [".."] else dirs[..|dirs| - 1]
    else dirs + [e]
  }

  function Ups(dirs: seq<string>, es: seq<string>): seq<string>
    decreases |es|
  {
    if es == [] then dirs else Ups(Up(dirs, es[0]), es[1..])
  }

  /** One element of the second bracket; "-" does not go above the first bracket's directories. */
  function Down(dirs: seq<string>, floor: nat, e: string): seq<string> {
    if e == "" then dirs
    else if e == "-" then if |dirs| > floor then dirs[..|dirs| - 1] else dirs
    else dirs + [e]
  }

  function Downs(dirs: seq<string>, floor: nat, es: seq<string>): seq<string>
    decreases |es|
  {
    if es == [] then dirs else Downs(Down(dirs, floor, es[0]), floor, es[1..])
  }

  datatype Brackets = Brackets(dirs: seq<string>, absolute: bool, rest: string) | Malformed

  function IsRelativeStart(c: char): bool { c == '.' || c == ']' || c == '-' }

  /** The directory list after an opening bracket. */
  function FirstBracket(t: string, absolute: bool): Brackets {
    if t == "" then Brackets([], absolute, "")
    else
      var t' := if t[0] == '.' then t[1..] else t;
      var r := AfterElements(t');
      if r == "" then Malformed
      else SecondBracket(Brackets(Ups([], Elements(t')), !IsRelativeStart(t[0]), r[1..]))
  }

  function SecondBracket(b: Brackets): Brackets
    requires b.Brackets?
  {
    if b.rest == "" || b.rest[0] != '[' then b
    else
      var u := b.rest[1..];
      if !b.absolute || (u != "" && u[0] == '.') then Malformed
      else
        var r := AfterElements(u);
        if r == "" then Malformed
        else b.(dirs := Downs(b.dirs, |b.dirs|, Elements(u)), rest := r[1..])
  }

  // ----- the whole text -----

  function VersionOf(rest: string): string {
    if rest != "" && rest[0] == ';' then rest[1..] else ""
  }

  /** The directory list, if the text begins with one. */
  function ListOf(t: string, absolute: bool): Brackets {
    if t != "" && t[0] == '[' then FirstBracket(t[1..], absolute) else Brackets([], absolute, t)
  }

  function Finish(o: Heading): Result<PathValue> {
    if o.name != "" then Ok(PathValue(o.node, o.device, [], o.name, VersionOf(o.rest), o.absolute))
    else
      var b := ListOf(o.rest, o.absolute);
      if b.Malformed? then SyntaxError
      else
        var n := Run(b.rest, VERSION);
        Ok(PathValue(o.node, o.device, b.dirs, b.rest[..n], VersionOf(b.rest[n..]), b.absolute))
  }

  /** parseVMS */
  function ParseVms(s: string): Result<PathValue> {
    Finish(Second(Head(s)))
  }

  /** One directory behind others: "-" for the parent, otherwise a dot and the name. */
  function Tail(ds: seq<string>): string {
    if ds == [] then ""
    else (if ds[0] == ".." then "-" else "." + ds[0]) + Tail(ds[1..])
  }

  function FirstText(d: string, absolute: bool): string {
    if d == ".." then "-" else if absolute then d else "." + d
  }

  /** The directory list; a name in front gets its dot only in a relative path. */
  function DirText(ds: seq<string>, absolute: bool): string {
    if ds == [] then ""
    else
      "[" + FirstText(ds[0], absolute) + (Tail(ds[1..]) + "]")
  }

  function Lead(p: PathValue): string {
    (if p.node != "" then p.node + "::" else "") + (if p.device != "" then p.device + ":" else "")
  }

  function NameText(p: PathValue): string {
    p.name + (if p.version != "" then ";" + p.version else "")
  }

  /** buildVMS */
  function BuildVms(p: PathValue): string {
    Lead(p) + (DirText(p.dirs, p.absolute) + NameText(p))
  }

  // ----- normal form -----

  /** Reading the elements from this depth on goes above the top. */
  predicate Sinks(depth: nat, es: seq<string>)
    decreases |es|
  {
    es != [] &&
    (if es[0] == "" then Sinks(depth, es[1..])
     else if es[0] == "-" then depth == 0 || Sinks(depth - 1, es[1..])
     else Sinks(depth + 1, es[1..]))
  }

  /** The elements of the first bracket of a text, if it has one. */
  function FirstElements(s: string): seq<string> {
    var o := Second(Head(s));
    if o.name != "" || |o.rest| < 2 || o.rest[0] != '[' then []
    else Elements(if o.rest[1] == '.' then o.rest[2..] else o.rest[1..])
  }

  /** The text has a directory list, and by its first character the list is an absolute one. */
  predicate AbsoluteList(s: string) {
    var o := Second(Head(s));
    o.name == "" && |o.rest| >= 2 && o.rest[0] == '[' && !IsRelativeStart(o.rest[1])
  }

  ghost predicate Plain(es: seq<string>) {
    forall i :: 0 <= i < |es| ==> Free(es[i], ELEMENT)
  }

  lemma {:induction false} ElementsPlain(t: string)
    ensures Plain(Elements(t))
    decreases |t|
  {
    if t != "" && t[0] != ']' {
      if t[0] == '-' {
        ElementsPlain(t[1..]);
      } else {
        var n := Run(t, ELEMENT);
        ElementsPlain(if n < |t| && t[n] != ']' then t[n + 1..] else t[n..]);
      }
    }
  }

  lemma NameIsNoDots(e: string)
    requires Free(e, ELEMENT)
    ensures e != "" ==> e[0] != '.'
  {
  }

  lemma {:induction false} UpsNormal(dirs: seq<string>, es: seq<string>)
    requires Normal(dirs, false) && Plain(es)
    ensures Normal(Ups(dirs, es), false)
    decreases |es|
  {
    if es != [] {
      NameIsNoDots(es[0]);
      assert Plain(es[1..]);
      UpsNormal(Up(dirs, es[0]), es[1..]);
    }
  }

  lemma {:induction false} DownsNormal(dirs: seq<string>, floor: nat, es: seq<string>)
    requires Normal(dirs, false) && Plain(es)
    ensures Normal(Downs(dirs, floor, es), false)
    decreases |es|
  {
    if es != [] {
      NameIsNoDots(es[0]);
      assert Plain(es[1..]);
      DownsNormal(Down(dirs, floor, es[0]), floor, es[1..]);
    }
  }

  /** A ".." once written stays. */
  lemma {:induction false} UpsKeepTop(dirs: seq<string>, es: seq<string>)
    requires dirs != [] && dirs[0] == ".."
    ensures Ups(dirs, es) != [] && Ups(dirs, es)[0] == ".."
    decreases |es|
  {
    if es != [] { UpsKeepTop(Up(dirs, es[0]), es[1..]); }
  }

  lemma {:induction false} UpsSink(dirs: seq<string>, es: seq<string>)
    requires Normal(dirs, true) && Plain(es)
    ensures Sinks(|dirs|, es) ==> Ups(dirs, es) != [] && Ups(dirs, es)[0] == ".."
    ensures !Sinks(|dirs|, es) ==> Normal(Ups(dirs, es), true)
    decreases |es|
  {
    if es != [] {
      NameIsNoDots(es[0]);
      assert Plain(es[1..]);
      if es[0] == "-" && dirs == [] {
        assert Up(dirs, es[0]) == [".."];
        UpsKeepTop([".."], es[1..]);
      } else {
        UpsSink(Up(dirs, es[0]), es[1..]);
      }
    }
  }

  /** The second bracket can neither remove what the first one wrote nor add "..". */
  lemma {:induction false} DownsKeepFloor(dirs: seq<string>, floor: nat, es: seq<string>)
    requires floor <= |dirs| && Plain(es)
    ensures dirs[..floor] <= Downs(dirs, floor, es)
    ensures Normal(dirs, true) ==> Normal(Downs(dirs, floor, es), true)
    decreases |es|
  {
    if es != [] {
      NameIsNoDots(es[0]);
      assert Plain(es[1..]);
      assert Down(dirs, floor, es[0])[..floor] == dirs[..floor];
      DownsKeepFloor(Down(dirs, floor, es[0]), floor, es[1..]);
    }
  }

  /** An accepted VMS text gives a normal path except when an absolute directory list uses "-" to climb above
      the root: there the parser writes ".." where pushDirectory would not. */
  lemma VmsNormalIff(s: string)
    requires ParseVms(s).Ok?
    ensures var p := ParseVms(s).value;
      && Normal(p.dirs, false)
      && (Normal(p.dirs, p.absolute) <==> !(AbsoluteList(s) && Sinks(0, FirstElements(s))))
  {
    var o := Second(Head(s));
    hide Second, Head;
    if o.name == "" && o.rest != "" && o.rest[0] == '[' {
      BracketsNormal(o.rest[1..], o.absolute);
    }
  }

  lemma BracketsNormal(t: string, absolute: bool)
    requires FirstBracket(t, absolute).Brackets?
    ensures var b := FirstBracket(t, absolute);
      && Normal(b.dirs, false)
      && (t != "" ==> (Normal(b.dirs, b.absolute)
            <==> !(b.absolute && Sinks(0, Elements(if t[0] == '.' then t[1..] else t)))))
      && (t == "" ==> b.dirs == [])
  {
    if t != "" {
      var t' := if t[0] == '.' then t[1..] else t;
      var es := Elements(t');
      ElementsPlain(t');
      UpsNormal([], es);
      UpsSink([], es);
      var dirs, r := Ups([], es), AfterElements(t')[1..];
      if r != "" && r[0] == '[' {
        ElementsPlain(r[1..]);
        DownsNormal(dirs, |dirs|, Elements(r[1..]));
        DownsKeepFloor(dirs, |dirs|, Elements(r[1..]));
        assert dirs[..|dirs|] == dirs;
      }
      hide Ups, Downs, Elements, AfterElements, Sinks;
    }
  }

  // ----- what directory lists mean -----

  /** "-" is the VMS way to write "..". */
  function Dotted(es: seq<string>): (r: seq<string>)
    ensures |r| == |es|
  {
    seq(|es|, i requires 0 <= i < |es| => if es[i] == "-" then ".." else es[i])
  }

  lemma DottedFirst(es: seq<string>)
    requires es != []
    ensures Dotted(es) == [if es[0] == "-" then ".." else es[0]] + Dotted(es[1..])
  {
  }

  /** The first list is pushed like a relative path, even if it is an absolute one. */
  lemma {:induction false} UpsArePushes(dirs: seq<string>, es: seq<string>)
    requires Plain(es)
    ensures Ups(dirs, es) == PushAll(dirs, false, Dotted(es))
    decreases |es|
  {
    if es != [] {
      NameIsNoDots(es[0]);
      assert Plain(es[1..]);
      DottedFirst(es);
      PushFirst(dirs, false, Dotted(es)[0], Dotted(es[1..]));
      UpsArePushes(Up(dirs, es[0]), es[1..]);
    }
  }

  /** The second list is pushed like an absolute path of which the first list is the root. */
  lemma {:induction false} DownsArePushes(dirs: seq<string>, x: seq<string>, es: seq<string>)
    requires Plain(es) && Normal(x, true)
    ensures Downs(dirs + x, |dirs|, es) == dirs + PushAll(x, true, Dotted(es))
    decreases |es|
  {
    if es != [] {
      NameIsNoDots(es[0]);
      assert Plain(es[1..]);
      var d := Dotted(es)[0];
      DottedFirst(es);
      PushFirst(x, true, d, Dotted(es[1..]));
      PushKeepsNormal(x, true, d);
      DownIsPush(dirs, x, es[0]);
      hide Down, Push, Normal;
      DownsArePushes(dirs, Push(x, true, d), es[1..]);
    }
  }

  lemma DownIsPush(dirs: seq<string>, x: seq<string>, e: string)
    requires Normal(x, true) && e != "." && e != ".."
    ensures Down(dirs + x, |dirs|, e) == dirs + Push(x, true, if e == "-" then ".." else e)
  {
    if e == "-" && x != [] {
      assert (dirs + x)[..|dirs + x| - 1] == dirs + x[..|x| - 1];
    }
  }

  /** What follows the first closing bracket is found there. */
  lemma {:induction false} AfterElementsAt(t: string)
    ensures AfterElements(t) == t[Run(t, {']'})..]
    decreases |t|
  {
    if t != "" && t[0] != ']' {
      if t[0] == '-' {
        AfterElementsAt(t[1..]);
      } else {
        var n := Run(t, ELEMENT);
        hide Run;
        var k := if n < |t| && t[n] != ']' then n + 1 else n;
        NoBracketBefore(t, n, k);
        RunOver(t, k);
        AfterElementsAt(t[k..]);
        DropBoth(t, k, Run(t[k..], {']'}));
      }
    }
  }

  lemma NoBracketBefore(t: string, n: nat, k: nat)
    requires n <= k <= |t| && Free(t[..n], ELEMENT) && (k == n || (k == n + 1 && t[n] != ']'))
    ensures Free(t[..k], {']'})
  {
    forall i | 0 <= i < k ensures t[..k][i] != ']' { assert i < n ==> t[..n][i] == t[i]; }
  }

  lemma DropBoth(t: string, k: nat, m: nat)
    requires k <= |t| && m <= |t[k..]|
    ensures t[k..][m..] == t[k + m..]
  {
  }

  lemma {:induction false} RunOver(t: string, n: nat)
    requires n <= |t| && Free(t[..n], {']'})
    ensures Run(t, {']'}) == n + Run(t[n..], {']'})
  {
    if n > 0 {
      assert t[..n][0] == t[0] && t[1..][..n - 1] == t[..n][1..];
      RunOver(t[1..], n - 1);
      assert t[1..][n - 1..] == t[n..];
    } else {
      assert t[0..] == t;
    }
  }

  /** The text behind an opening bracket that is followed by something, or "". */
  function ListText(s: string): string {
    var o := Second(Head(s));
    if o.name == "" && |o.rest| >= 2 && o.rest[0] == '[' then o.rest[1..] else ""
  }

  /** The text behind the second opening bracket that directly follows the first list, if there is one. */
  function SecondList(t: string): Option<string> {
    var n := Run(t, {']'});
    if n + 1 < |t| && t[n + 1] == '[' then Some(t[n + 2..]) else None
  }

  /** A text is refused exactly when a directory list is not closed, or a second list follows a relative one, begins
      with a dot or is not closed. A list decides by its first character whether the path is absolute. */
  lemma VmsAccepts(s: string)
    ensures var t := ListText(s);
      var relative := t != "" && t[0] in {'.', ']', '-'};
      var u := SecondList(t);
      && (ParseVms(s).Ok? <==>
            t == "" || (&& Run(t, {']'}) < |t|
                        && (u.Some? ==> !relative && Run(u.value, {']'}) < |u.value| && u.value[0] != '.')))
      && (ParseVms(s).Ok? ==>
            ParseVms(s).value.absolute == if t == "" then Second(Head(s)).absolute else !relative)
  {
    var o, t := Second(Head(s)), ListText(s);
    hide Second, Head;
    if t != "" {
      ListAccepted(t, o.absolute);
      assert o.rest[1..] == t;
      hide FirstBracket, Run;
    } else {
      hide Run;
    }
  }

  lemma ListAccepted(t: string, absolute: bool)
    requires t != ""
    ensures var relative := t[0] in {'.', ']', '-'};
      var u, b := SecondList(t), FirstBracket(t, absolute);
      && (b.Brackets? <==>
            && Run(t, {']'}) < |t|
            && (u.Some? ==> !relative && Run(u.value, {']'}) < |u.value| && u.value[0] != '.'))
      && (b.Brackets? ==> b.absolute == !relative)
  {
    hide Run, Elements, Ups, Downs, FirstBracket, SecondBracket;
    FirstBracketAt(t, absolute);
    var n := Run(t, {']'});
    if n < |t| { SecondBracketAt(Brackets(Ups([], Elements(Undotted(t))), !IsRelativeStart(t[0]), t[n + 1..]), t); }
  }

  /** A list's text behind the dot that makes it relative. */
  function Undotted(t: string): string { if t != "" && t[0] == '.' then t[1..] else t }

  lemma FirstBracketAt(t: string, absolute: bool)
    requires t != ""
    ensures var n := Run(t, {']'});
      FirstBracket(t, absolute)
        == if n == |t| then Malformed
           else SecondBracket(Brackets(Ups([], Elements(Undotted(t))), !IsRelativeStart(t[0]), t[n + 1..]))
  {
    hide Elements, Ups, SecondBracket, Run, AfterElements;
    UndottedAfter(t);
    var n := Run(t, {']'});
    if n < |t| { DropBoth(t, n, 1); }
  }

  lemma UndottedAfter(t: string)
    requires t != ""
    ensures AfterElements(Undotted(t)) == t[Run(t, {']'})..]
  {
    hide Run, AfterElements;
    AfterElementsAt(Undotted(t));
    if t[0] == '.' {
      RunOver(t, 1);
      DropBoth(t, 1, Run(t[1..], {']'}));
    }
  }

  lemma SecondBracketAt(b: Brackets, t: string)
    requires b.Brackets? && Run(t, {']'}) < |t| && b.rest == t[Run(t, {']'}) + 1..]
    ensures SecondBracket(b) ==
      match SecondList(t)
      case None => b
      case Some(u) =>
        var m := Run(u, {']'});
        if !b.absolute || m == |u| || u[0] == '.' then Malformed
        else Brackets(Downs(b.dirs, |b.dirs|, Elements(u)), b.absolute, u[m + 1..])
  {
    hide Elements, Downs, Run, AfterElements;
    var n := Run(t, {']'});
    var r := b.rest;
    assert |r| == |t| - n - 1 && (r != "" ==> r[0] == t[n + 1]);
    if r != "" && r[0] == '[' {
      DropTwo(t, n);
      SecondText(b, r[1..]);
    }
  }

  lemma DropTwo(t: string, n: nat)
    requires n + 1 < |t|
    ensures t[n + 1..][1..] == t[n + 2..]
  {
  }

  lemma SecondText(b: Brackets, u: string)
    requires b.Brackets? && b.rest != "" && b.rest[0] == '[' && b.rest[1..] == u
    ensures var m := Run(u, {']'});
      SecondBracket(b) ==
        if !b.absolute || m == |u| || u[0] == '.' then Malformed
        else Brackets(Downs(b.dirs, |b.dirs|, Elements(u)), b.absolute, u[m + 1..])
  {
    hide Elements, Downs, Run, AfterElements;
    AfterElementsAt(u);
    var m := Run(u, {']'});
    if m < |u| { assert u[m..][1..] == u[m + 1..]; }
  }

  /** The directories of an accepted text with a list. */
  lemma VmsDirectories(s: string)
    requires ParseVms(s).Ok? && ListText(s) != ""
    ensures var t := ListText(s);
      var first := PushAll([], false, Dotted(Elements(Undotted(t))));
      ParseVms(s).value.dirs == match SecondList(t)
        case None => first
        case Some(u) => first + PushAll([], true, Dotted(Elements(u)))
  {
    var o, t := Second(Head(s)), ListText(s);
    hide Second, Head;
    ListDirectories(t, o.absolute);
    assert o.rest[1..] == t;
    hide FirstBracket, Run, Elements;
  }

  lemma ListDirectories(t: string, absolute: bool)
    requires t != "" && FirstBracket(t, absolute).Brackets?
    ensures var first := PushAll([], false, Dotted(Elements(Undotted(t))));
      FirstBracket(t, absolute).dirs == match SecondList(t)
        case None => first
        case Some(u) => first + PushAll([], true, Dotted(Elements(u)))
  {
    hide Run, Elements, Ups, Downs, FirstBracket, SecondBracket, PushAll, Dotted;
    FirstBracketAt(t, absolute);
    var n := Run(t, {']'});
    var first := Ups([], Elements(Undotted(t)));
    SecondBracketAt(Brackets(first, !IsRelativeStart(t[0]), t[n + 1..]), t);
    ElementsPlain(Undotted(t));
    UpsArePushes([], Elements(Undotted(t)));
    if SecondList(t).Some? { SecondDirectories(first, SecondList(t).value); }
  }

  lemma SecondDirectories(first: seq<string>, u: string)
    ensures Downs(first, |first|, Elements(u)) == first + PushAll([], true, Dotted(Elements(u)))
  {
    hide Elements, Downs, PushAll, Dotted;
    ElementsPlain(u);
    DownsArePushes(first, [], Elements(u));
    assert first + [] == first;
  }

  /** Without "-", a list means the names between its dots. */
  lemma {:induction false} ElementsAreNamed(a: string, rest: string, dirs: seq<string>, absolute: bool)
    requires Free(a, {']', '-'})
    ensures PushAll(dirs, absolute, Elements(a + "]" + rest)) == PushAll(dirs, absolute, Split(a, {'.'}))
    decreases |a|
  {
    hide Run, Elements, Split, PushAll, Push;
    var n := Run(a, {'.'});
    var t := a + "]" + rest;
    ElementRun(a, n, rest);
    SplitAt(a, {'.'});
    if n < |a| {
      FirstElement(t);
      TailOf(a, n, rest);
      PushFirst(dirs, absolute, a[..n], Elements(t[n + 1..]));
      PushFirst(dirs, absolute, a[..n], Split(a[n + 1..], {'.'}));
      ElementsAreNamed(a[n + 1..], rest, Push(dirs, absolute, a[..n]), absolute);
    } else {
      LastNamed(a, rest, dirs, absolute);
    }
  }

  lemma TailOf(a: string, n: nat, rest: string)
    requires n < |a| && Free(a, {']', '-'})
    ensures var t := a + "]" + rest;
      t[n + 1..] == a[n + 1..] + "]" + rest && t[..n] == a[..n] && Free(a[n + 1..], {']', '-'})
  {
  }

  lemma LastNamed(a: string, rest: string, dirs: seq<string>, absolute: bool)
    requires a != "" ==> var t := a + "]" + rest;
      t[0] != ']' && t[0] != '-' && Run(t, ELEMENT) == |a| && t[|a|] == ']'
    ensures PushAll(dirs, absolute, Elements(a + "]" + rest)) == PushAll(dirs, absolute, [a])
  {
    hide Run, Push;
    var t := a + "]" + rest;
    PushFirst(dirs, absolute, a, []);
    assert [a] + [] == [a];
    if a != "" {
      FirstElement(t);
      assert t[..|a|] == a && t[|a|..][0] == ']';
      assert Elements(t[|a|..]) == [];
    } else {
      assert t[0] == ']';
      NoPush(dirs, absolute);
    }
  }

  lemma NoPush(dirs: seq<string>, absolute: bool)
    ensures PushAll(dirs, absolute, []) == dirs && Push(dirs, absolute, "") == dirs
  {
  }

  lemma ElementRun(a: string, n: nat, rest: string)
    requires Free(a, {']', '-'}) && n == Run(a, {'.'})
    ensures var t := a + "]" + rest;
      if n < |a| then t[0] != ']' && t[0] != '-' && Run(t, ELEMENT) == n && t[n] == '.'
      else a != "" ==> t[0] != ']' && t[0] != '-' && Run(t, ELEMENT) == n && t[n] == ']'
  {
    var t := a + "]" + rest;
    var b := a[n..] + ("]" + rest);
    FreeFront(a, n);
    hide Run, Free;
    assert t == a + ("]" + rest);
    CutBehind(a, n, "]" + rest);
    assert b[0] == t[n] == if n < |a| then a[n] else ']';
    RunOf(a[..n], b, ELEMENT);
    FreeStart(a);
  }

  lemma CutBehind(a: string, n: nat, t: string)
    requires n <= |a|
    ensures a + t == a[..n] + (a[n..] + t)
  {
  }

  lemma FreeFront(a: string, n: nat)
    requires Free(a, {']', '-'}) && n == Run(a, {'.'})
    ensures Free(a[..n], ELEMENT) && (n < |a| ==> a[n] == '.')
  {
    forall i | 0 <= i < n ensures a[..n][i] !in ELEMENT { assert a[..n][i] == a[i]; }
  }

  lemma FreeStart(a: string)
    requires Free(a, {']', '-'})
    ensures a != "" ==> a[0] != ']' && a[0] != '-'
  {
  }

  // ----- how elements are read -----

  /** A name up to its dot or bracket; the dot is eaten. */
  lemma ReadElement(a: string, t: string)
    requires a != "" && Free(a, ELEMENT) && a[0] != '-' && t != "" && t[0] in ELEMENT
    ensures var t' := if t[0] == '.' then t[1..] else t;
      Elements(a + t) == [a] + Elements(t') && AfterElements(a + t) == AfterElements(t')
  {
    RunOf(a, t, ELEMENT);
    hide Run, Elements, AfterElements;
    var s := a + t;
    assert s[0] == a[0] && s[|a|] == t[0];
    assert s[..|a|] == a && s[|a|..] == t && s[|a| + 1..] == t[1..];
    FirstElement(s);
  }

  lemma FirstElement(s: string)
    requires s != "" && s[0] != ']' && s[0] != '-'
    ensures var n := Run(s, ELEMENT);
      var t := if n < |s| && s[n] != ']' then s[n + 1..] else s[n..];
      Elements(s) == [s[..n]] + Elements(t) && AfterElements(s) == AfterElements(t)
  {
    hide Run;
  }

  lemma ReadDot(t: string)
    ensures Elements("." + t) == [""] + Elements(t) && AfterElements("." + t) == AfterElements(t)
  {
    var s := "." + t;
    assert Run(s, ELEMENT) == 0;
    hide Run;
    assert s[..0] == "" && s[1..] == t;
  }

  lemma ReadUp(t: string)
    ensures Elements("-" + t) == ["-"] + Elements(t) && AfterElements("-" + t) == AfterElements(t)
  {
    assert ("-" + t)[1..] == t;
  }

  lemma ReadEnd(t: string)
    ensures Elements("]" + t) == [] && AfterElements("]" + t) == "]" + t
  {
  }

  lemma ClimbElements()
    ensures Elements("A.-.-]") == ["A", "-", "", "-"] && AfterElements("A.-.-]") == "]"
  {
    hide Elements, AfterElements, Run;
    ClimbTail();
    ReadElement("A", ".-.-]");
    assert ".-.-]"[1..] == "-.-]" && "A.-.-]" == "A" + ".-.-]";
  }

  lemma ClimbTail()
    ensures Elements("-.-]") == ["-", "", "-"] && AfterElements("-.-]") == "]"
  {
    hide Elements, AfterElements, Run;
    ReadEnd("");
    ReadUp("]" + "");
    ReadDot("-]");
    ReadUp(".-]");
    assert "-]" == "-" + ("]" + "") && ".-]" == "." + "-]" && "-.-]" == "-" + ".-]";
  }

  lemma ClimbUps()
    ensures Ups([], ["A", "-", "", "-"]) == [".."]
  {
    var a, b, c := ["-", "", "-"], ["", "-"], ["-"];
    assert ["A", "-", "", "-"][1..] == a && a[1..] == b && b[1..] == c && c[1..] == [];
    assert Ups([".."], []) == [".."];
    assert Ups([], c) == [".."] by { assert Up([], "-") == [".."]; }
    assert Ups([], b) == [".."];
    assert Ups(["A"], a) == [".."] by { assert Up(["A"], "-") == []; }
    assert Up([], "A") == ["A"];
  }

  lemma ClimbHead(s: string)
    requires s == "[A.-.-]"
    ensures Second(Head(s)) == Heading("", "", false, "", s) && s[1..] == "A.-.-]"
  {
    assert Run(s, HEAD) == 0;
    hide Run;
    assert s[..0] == "" && s[0..] == s;
  }

  /** An accepted text whose path is absolute and yet contains "..". */
  lemma ClimbingAboveRoot()
    ensures ParseVms("[A.-.-]") == Ok(PathValue("", "", [".."], "", "", true))
    ensures !Normal([".."], true)
  {
    ClimbElements();
    ClimbUps();
    ClimbHead("[A.-.-]");
    hide Elements, AfterElements, Ups, Head, Second;
    assert "]"[1..] == "";
    assert FirstBracket("A.-.-]", false) == Brackets([".."], true, "");
    assert ""[..0] == "" && Run("", VERSION) == 0;
    assert [".."][0] == "..";
  }

  // ----- parsing undoes printing -----

  /** A directory name that can stand between brackets. */
  ghost predicate DirName(d: string) {
    d == ".." || (d != "" && d[0] != '-' && Free(d, ELEMENT))
  }

  ghost predicate AllDirNames(ds: seq<string>) {
    forall i :: 0 <= i < |ds| ==> DirName(ds[i])
  }

  /** Node and device can be told apart, and from what follows. */
  ghost predicate LeadOk(p: PathValue) {
    && Free(p.node, HEAD) && Free(p.device, DEVICE)
    && (if p.node == "" then Free(p.device, HEAD) else p.device == "" || p.device[0] != '[')
  }

  /** So can the name: the fewer things are in front of it, the less it may contain. */
  ghost predicate NameOk(p: PathValue) {
    && Free(p.name, VERSION)
    && (p.name != "" ==> p.name[0] != '[')
    && (p.dirs == [] ==>
          && (p.device == "" ==> Free(p.name, DEVICE))
          && (p.device == "" && p.node == "" ==> Free(p.name, HEAD))
          && (p.device != "" && p.node == "" && p.name != "" ==> p.name[0] != ':'))
  }

  /** What a path must be like to survive printing in VMS style. */
  ghost predicate CanonicalVms(p: PathValue) {
    && Normal(p.dirs, p.absolute) && AllDirNames(p.dirs)
    && (p.dirs == [] ==> p.absolute == (p.node != "" || p.device != ""))
    && LeadOk(p) && NameOk(p)
  }

  /** Reading the directories behind the first one puts them behind it. */
  lemma {:induction false} ReadTail(cur: seq<string>, ds: seq<string>, t: string)
    requires Normal(cur + ds, false) && forall i :: 0 <= i < |ds| ==> DirName(ds[i])
    ensures Ups(cur, Elements(Tail(ds) + ("]" + t))) == cur + ds
    ensures AfterElements(Tail(ds) + ("]" + t)) == "]" + t
    decreases |ds|
  {
    if ds == [] {
      assert Tail(ds) + ("]" + t) == "]" + t && cur + ds == cur;
      ReadEnd(t);
    } else {
      var d, rest := ds[0], ds[1..];
      assert cur + [d] + rest == cur + ds;
      NormalSplits(cur, ds);
      ReadTail(cur + [d], rest, t);
      hide Elements, AfterElements, Normal;
      if d == ".." {
        TailUp(cur, ds, "]" + t);
      } else {
        TailHasNoUp(cur + [d], rest);
        TailName(cur, ds, "]" + t);
      }
    }
  }

  lemma NormalSplits(cur: seq<string>, ds: seq<string>)
    requires Normal(cur + ds, false) && ds != []
    ensures ds[0] == ".." && cur != [] ==> cur[|cur| - 1] == ".."
  {
    assert (cur + ds)[|cur|] == ds[0];
    if cur != [] { assert (cur + ds)[|cur| - 1] == cur[|cur| - 1]; }
  }

  lemma TailUp(cur: seq<string>, ds: seq<string>, end: string)
    requires ds != [] && ds[0] == ".." && (cur != [] ==> cur[|cur| - 1] == "..")
    ensures var more := Tail(ds[1..]) + end;
      && Ups(cur, Elements(Tail(ds) + end)) == Ups(cur + [".."], Elements(more))
      && AfterElements(Tail(ds) + end) == AfterElements(more)
  {
    var more := Tail(ds[1..]) + end;
    assert Tail(ds) + end == "-" + more;
    ReadUp(more);
    hide Elements, AfterElements;
    assert Up(cur, "-") == cur + [".."];
    UpsStep(cur, "-", Elements(more));
  }

  lemma TailName(cur: seq<string>, ds: seq<string>, end: string)
    requires ds != [] && ds[0] != ".." && DirName(ds[0]) && end != "" && end[0] == ']'
    requires forall i :: 0 <= i < |ds[1..]| ==> ds[1..][i] != ".."
    ensures var more := Tail(ds[1..]) + end;
      && Ups(cur, Elements(Tail(ds) + end)) == Ups(cur + [ds[0]], Elements(more))
      && AfterElements(Tail(ds) + end) == AfterElements(more)
  {
    var d, more := ds[0], Tail(ds[1..]) + end;
    assert Tail(ds) + end == "." + (d + more);
    ReadDot(d + more);
    hide Elements, AfterElements;
    ReadNameThen(cur, d, ds[1..], end);
    UpsStep(cur, "", Elements(d + more));
  }

  lemma UpsStep(cur: seq<string>, e: string, es: seq<string>)
    ensures Ups(cur, [e] + es) == Ups(Up(cur, e), es)
  {
    assert ([e] + es)[1..] == es;
  }

  /** Behind a name there is no "..". */
  lemma TailHasNoUp(cur: seq<string>, ds: seq<string>)
    requires cur != [] && cur[|cur| - 1] != ".." && Normal(cur + ds, false)
    ensures forall i :: 0 <= i < |ds| ==> ds[i] != ".."
  {
    forall i | 0 <= i < |ds| ensures ds[i] != ".." {
      assert (cur + ds)[|cur| - 1] == cur[|cur| - 1] && (cur + ds)[|cur| + i] == ds[i];
    }
  }

  /** A name read, then the rest as if its dot were still there. */
  lemma ReadNameThen(cur: seq<string>, d: string, rest: seq<string>, end: string)
    requires DirName(d) && d != ".." && end != "" && end[0] == ']'
    requires forall i :: 0 <= i < |rest| ==> rest[i] != ".."
    ensures Ups(cur, Elements(d + (Tail(rest) + end))) == Ups(cur + [d], Elements(Tail(rest) + end))
    ensures AfterElements(d + (Tail(rest) + end)) == AfterElements(Tail(rest) + end)
  {
    var more := Tail(rest) + end;
    if rest == [] {
      assert more == end;
    } else {
      assert more == "." + (rest[0] + (Tail(rest[1..]) + end));
      ReadDot(more[1..]);
    }
    ReadElement(d, more);
    hide Elements, AfterElements;
    assert d != "-" by { assert d[0] != '-'; }
    assert Up(cur, d) == cur + [d];
    if rest == [] {
      UpsStep(cur, d, Elements(more));
    } else {
      assert "." + more[1..] == more;
      UpsStep(cur, d, Elements(more[1..]));
      UpsStep(cur + [d], "", Elements(more[1..]));
    }
  }

  /** A bracket text that reads as these directories. */
  ghost predicate ReadsAs(u: string, ds: seq<string>, absolute: bool, t: string) {
    && u != "" && (IsRelativeStart(u[0]) <==> !absolute)
    && var t' := if u[0] == '.' then u[1..] else u;
    Ups([], Elements(t')) == ds && AfterElements(t') == "]" + t
  }

  /** A bracket whose elements and end are known. */
  lemma FirstOf(u: string, before: bool, dirs: seq<string>, absolute: bool, t: string)
    requires ReadsAs(u, dirs, absolute, t) && (t != "" ==> t[0] != '[')
    ensures FirstBracket(u, before) == Brackets(dirs, absolute, t)
  {
    assert ("]" + t)[1..] == t;
    hide Ups, Elements, AfterElements;
  }

  lemma DirTextStart(ds: seq<string>, absolute: bool, t: string)
    requires ds != []
    ensures var s := DirText(ds, absolute) + t;
      s[0] == '[' && s[1..] == FirstText(ds[0], absolute) + (Tail(ds[1..]) + ("]" + t))
  {
  }

  lemma ReadFirstUp(ds: seq<string>, t: string)
    requires ds != [] && ds[0] == ".." && Normal(ds, false) && forall i :: 0 <= i < |ds| ==> DirName(ds[i])
    ensures ReadsAs("-" + (Tail(ds[1..]) + ("]" + t)), ds, false, t)
  {
    assert [] + ds == ds;
    ReadTail([], ds, t);
    hide Elements, AfterElements, Ups, Normal;
    assert Tail(ds) + ("]" + t) == "-" + (Tail(ds[1..]) + ("]" + t));
  }

  lemma ReadFirstName(ds: seq<string>, t: string)
    requires ds != [] && ds[0] != ".." && Normal(ds, false) && forall i :: 0 <= i < |ds| ==> DirName(ds[i])
    ensures var u := ds[0] + (Tail(ds[1..]) + ("]" + t));
      Ups([], Elements(u)) == ds && AfterElements(u) == "]" + t
  {
    var d, rest := ds[0], ds[1..];
    assert [d] + rest == ds && [] + [d] == [d];
    ReadTail([d], rest, t);
    TailHasNoUp([d], rest);
    hide Elements, AfterElements, Ups, Normal, Tail;
    ReadNameThen([], d, rest, "]" + t);
  }

  lemma DottedReads(d: string, absolute: bool, more: string, ds: seq<string>, t: string)
    requires DirName(d) && d != ".."
    requires Ups([], Elements(d + more)) == ds && AfterElements(d + more) == "]" + t
    ensures ReadsAs(FirstText(d, absolute) + more, ds, absolute, t)
  {
    hide Elements, AfterElements, Ups;
    var u := FirstText(d, absolute) + more;
    if absolute {
      assert u == d + more && u[0] == d[0];
    } else {
      assert u == "." + (d + more) && u[1..] == d + more;
    }
  }

  /** The first directory, read at the front of the bracket. */
  lemma ReadFirst(ds: seq<string>, absolute: bool, t: string)
    requires ds != [] && Normal(ds, absolute) && forall i :: 0 <= i < |ds| ==> DirName(ds[i])
    ensures ReadsAs(FirstText(ds[0], absolute) + (Tail(ds[1..]) + ("]" + t)), ds, absolute, t)
  {
    hide ReadsAs, Tail, Ups, Elements, AfterElements;
    if ds[0] == ".." {
      ReadFirstUp(ds, t);
    } else {
      ReadFirstName(ds, t);
      DottedReads(ds[0], absolute, Tail(ds[1..]) + ("]" + t), ds, t);
    }
  }

  /** The bracketed list is read back as the directories and the absolute flag. */
  lemma ReadBrackets(p: PathValue, t: string, before: bool)
    requires p.dirs != [] && Normal(p.dirs, p.absolute) && (forall i :: 0 <= i < |p.dirs| ==> DirName(p.dirs[i]))
    requires t != "" ==> t[0] != '['
    ensures var s := DirText(p.dirs, p.absolute) + t;
      && s[0] == '[' && FirstBracket(s[1..], before) == Brackets(p.dirs, p.absolute, t)
  {
    DirTextStart(p.dirs, p.absolute, t);
    ReadFirst(p.dirs, p.absolute, t);
    var s := DirText(p.dirs, p.absolute) + t;
    hide ReadsAs, FirstBracket, DirText, Normal, Tail, FirstText;
    FirstOf(s[1..], before, p.dirs, p.absolute, t);
  }

  /** What is left once node and device are read. */
  lemma ReadLead(p: PathValue, body: string)
    requires LeadOk(p) && (p.node != "" || p.device != "") && body == DirText(p.dirs, p.absolute) + NameText(p)
    requires p.dirs != [] || p.device != ""
    requires p.node == "" && p.dirs == [] ==> body == "" || body[0] != ':'
    ensures Second(Head(Lead(p) + body)) == Heading(p.node, p.device, true, "", body)
  {
    BodyStart(p, body);
    LeadText(p, body);
    hide DirText, Lead, Second, Head;
    if p.node == "" {
      ReadDevice(p.device, body);
    } else if p.device != "" {
      ReadNode(p.node, p.device + (":" + body));
      ReadSecond(p.node, p.device, body);
    } else {
      ReadNode(p.node, body);
      SecondStops(Heading(p.node, "", true, "", body));
    }
  }

  lemma LeadText(p: PathValue, body: string)
    ensures var t := if p.device != "" then p.device + (":" + body) else body;
      Lead(p) + body == if p.node != "" then p.node + ("::" + t) else t
  {
    var t := if p.device != "" then p.device + (":" + body) else body;
    var d := if p.device != "" then p.device + ":" else "";
    assert d + body == t;
  }

  lemma SecondStops(o: Heading)
    requires o.rest != "" && o.rest[0] == '['
    ensures Second(o) == o
  {
  }

  lemma BodyStart(p: PathValue, body: string)
    requires body == DirText(p.dirs, p.absolute) + NameText(p)
    ensures p.dirs != [] ==> body != "" && body[0] == '['
    ensures p.dirs == [] ==> body == NameText(p)
  {
  }

  lemma NoColonFirst(p: PathValue)
    requires NameOk(p) && p.dirs == [] && p.node == "" && p.device != ""
    ensures NameText(p) == "" || NameText(p)[0] != ':'
  {
  }

  lemma ReadNode(node: string, t: string)
    requires Free(node, HEAD)
    ensures Head(node + ("::" + t)) == Heading(node, "", true, "", t)
  {
    var s := node + ("::" + t);
    RunOf(node, "::" + t, HEAD);
    hide Run;
    assert s[|node|] == ':' && s[|node| + 1] == ':' && s[..|node|] == node && s[|node| + 2..] == t;
  }

  lemma ReadDevice(device: string, t: string)
    requires device != "" && Free(device, HEAD) && (t == "" || t[0] != ':')
    ensures Second(Head(device + (":" + t))) == Heading("", device, true, "", t)
  {
    var s := device + (":" + t);
    RunOf(device, ":" + t, HEAD);
    hide Run;
    assert s[|device|] == ':' && s[..|device|] == device && s[|device| + 1..] == t;
    assert t != "" ==> s[|device| + 1] == t[0];
  }

  lemma ReadSecond(node: string, device: string, t: string)
    requires device != "" && Free(device, DEVICE) && device[0] != '['
    ensures Second(Heading(node, "", true, "", device + (":" + t))) == Heading(node, device, true, "", t)
  {
    var s := device + (":" + t);
    RunOf(device, ":" + t, DEVICE);
    hide Run, Second;
    assert s[0] == device[0] && s[|device|] == ':' && s[..|device|] == device && s[|device| + 1..] == t;
    SecondDevice(Heading(node, "", true, "", s), |device|);
  }

  lemma SecondDevice(o: Heading, m: nat)
    requires o.device == o.name == "" && m == Run(o.rest, DEVICE) < |o.rest|
    requires o.rest[0] != '[' && o.rest[m] == ':'
    ensures Second(o) == Heading(o.node, o.rest[..m], true, "", o.rest[m + 1..])
  {
    hide Run;
    assert "" + o.rest[..m] == o.rest[..m];
  }

  /** A name that follows nothing, or only a node. */
  lemma ReadPlainName(p: PathValue)
    requires LeadOk(p) && NameOk(p) && p.dirs == [] && p.device == ""
    ensures var v := if p.version != "" then ";" + p.version else "";
      Second(Head(Lead(p) + NameText(p))) == Heading(p.node, "", p.node != "", p.name, v)
  {
    var v := if p.version != "" then ";" + p.version else "";
    var t := p.name + v;
    if p.node != "" {
      assert Lead(p) + NameText(p) == p.node + ("::" + t);
      ReadNode(p.node, t);
      ReadRest(p.node, true, "", p.name, v);
      assert "" + p.name == p.name;
    } else {
      assert Lead(p) + NameText(p) == t;
      RunOf(p.name, v, HEAD);
      assert t[..|p.name|] == p.name && t[|p.name|..] == v;
      hide Run;
      assert |p.name| < |t| ==> t[|p.name|] == ';';
      assert "" + v == v;
      ReadRest("", false, p.name, "", v);
      assert p.name + "" == p.name;
    }
  }

  lemma ReadRest(node: string, absolute: bool, name: string, more: string, v: string)
    requires Free(more, DEVICE) && (more != "" ==> more[0] != '[') && (v == "" || v[0] == ';')
    ensures Second(Heading(node, "", absolute, name, more + v)) == Heading(node, "", absolute, name + more, v)
  {
    var t := more + v;
    RunOf(more, v, DEVICE);
    hide Run;
    assert t[..|more|] == more && t[|more|..] == v;
    assert more == "" ==> t == v && name + more == name;
    assert |more| < |t| ==> t[|more|] == ';';
  }

  lemma ReadNameAndVersion(p: PathValue)
    requires Free(p.name, VERSION)
    ensures var t := NameText(p);
      var n := Run(t, VERSION);
      n == |p.name| && t[..n] == p.name && VersionOf(t[n..]) == p.version
  {
    var v := if p.version != "" then ";" + p.version else "";
    RunOf(p.name, v, VERSION);
    hide Run;
    assert NameText(p) == p.name + v;
    assert NameText(p)[|p.name|..] == v;
    assert v != "" ==> v[1..] == p.version;
  }

  /** Parsing undoes printing for every canonical path. */
  lemma VmsRoundTrip(p: PathValue)
    requires CanonicalVms(p)
    ensures ParseVms(BuildVms(p)) == Ok(p)
  {
    var body := DirText(p.dirs, p.absolute) + NameText(p);
    ReadNameAndVersion(p);
    if p.dirs == [] && p.device == "" {
      assert body == NameText(p);
      ReadPlainName(p);
      PlainFinish(p);
    } else if p.node == "" && p.device == "" {
      assert Lead(p) + body == body;
      ReadBrackets(p, NameText(p), false);
      NameTextStart(p);
      BracketHead(body);
      hide FirstBracket, Second, Head, Run, DirText;
    } else {
      BodyStart(p, body);
      if p.dirs == [] && p.node == "" { NoColonFirst(p); }
      ReadLead(p, body);
      NameTextStart(p);
      if p.dirs != [] {
        ReadBrackets(p, NameText(p), true);
      } else {
        assert body == NameText(p);
      }
      hide FirstBracket, Second, Head, Run, DirText, Lead;
    }
  }

  lemma NameTextStart(p: PathValue)
    requires p.name != "" ==> p.name[0] != '['
    ensures NameText(p) != "" ==> NameText(p)[0] != '['
  {
  }

  lemma BracketHead(s: string)
    requires s != "" && s[0] == '['
    ensures Second(Head(s)) == Heading("", "", false, "", s)
  {
    assert Run(s, HEAD) == 0 && s[..0] == "" && s[0..] == s;
  }

  lemma PlainFinish(p: PathValue)
    requires p.dirs == [] && p.device == ""
    ensures var v := if p.version != "" then ";" + p.version else "";
      Finish(Heading(p.node, "", p.node != "", p.name, v)) == Ok(p.(absolute := p.node != ""))
  {
    var v := if p.version != "" then ";" + p.version else "";
    RunOf("", v, VERSION);
    assert "" + v == v && v[0..] == v && v[..0] == "";
    assert v != "" ==> v[1..] == p.version;
    hide Run, FirstBracket;
  }

  // ----- only canonical paths survive -----

  ghost predicate Names(es: seq<string>) {
    forall i :: 0 <= i < |es| ==> es[i] == "" || es[i] == "-" || (es[i][0] != '-' && Free(es[i], ELEMENT))
  }

  lemma {:induction false} ElementsAreNames(t: string)
    ensures Names(Elements(t))
    decreases |t|
  {
    if t != "" && t[0] != ']' {
      if t[0] == '-' {
        ElementsAreNames(t[1..]);
      } else {
        var n := Run(t, ELEMENT);
        ElementsAreNames(if n < |t| && t[n] != ']' then t[n + 1..] else t[n..]);
        assert n > 0 ==> t[..n][0] == t[0];
      }
    }
  }

  lemma {:induction false} UpsAreNames(dirs: seq<string>, es: seq<string>)
    requires AllDirNames(dirs) && Names(es)
    ensures AllDirNames(Ups(dirs, es))
    decreases |es|
  {
    if es != [] {
      assert Names(es[1..]);
      UpsAreNames(Up(dirs, es[0]), es[1..]);
    }
  }

  lemma {:induction false} DownsAreNames(dirs: seq<string>, floor: nat, es: seq<string>)
    requires AllDirNames(dirs) && Names(es)
    ensures AllDirNames(Downs(dirs, floor, es))
    decreases |es|
  {
    if es != [] {
      assert Names(es[1..]);
      DownsAreNames(Down(dirs, floor, es[0]), floor, es[1..]);
    }
  }

  /** What a bracket leaves: proper directory names, and less text than there was. */
  lemma BracketShape(t: string, absolute: bool)
    requires FirstBracket(t, absolute).Brackets?
    ensures var b := FirstBracket(t, absolute); AllDirNames(b.dirs) && |b.rest| <= |t|
  {
    if t != "" {
      var t' := if t[0] == '.' then t[1..] else t;
      ElementsAreNames(t');
      UpsAreNames([], Elements(t'));
      var dirs, r := Ups([], Elements(t')), AfterElements(t')[1..];
      hide Ups, Downs, Elements, AfterElements, Names;
      SecondShape(Brackets(dirs, !IsRelativeStart(t[0]), r));
    }
  }

  lemma SecondShape(b: Brackets)
    requires b.Brackets? && AllDirNames(b.dirs) && SecondBracket(b).Brackets?
    ensures var c := SecondBracket(b);
      && AllDirNames(c.dirs) && |c.rest| <= |b.rest| && c.absolute == b.absolute
      && (b.rest != "" && b.rest[0] == '[' ==> |c.rest| < |b.rest|)
  {
    if b.rest != "" && b.rest[0] == '[' {
      var u := b.rest[1..];
      ElementsAreNames(u);
      DownsAreNames(b.dirs, |b.dirs|, Elements(u));
      hide Ups, Downs, Elements, AfterElements, Names, AllDirNames;
    }
  }

  /** Before the brackets: where node, device and name can come from. */
  lemma HeadShape(s: string)
    ensures var o := Second(Head(s));
      && Free(o.node, HEAD) && Free(o.device, DEVICE) && (o.device != "" ==> o.device[0] != '[')
      && Free(o.name, VERSION) && (o.name != "" ==> o.name[0] != '[')
  {
    var h := Head(s);
    var n := Run(s, HEAD);
    assert Free(s[..n], HEAD);
    assert h.name != "" ==> h.rest == "" || h.rest[0] in {'[', ';'};
    assert n > 0 ==> s[..n][0] == s[0];
    if h.rest != "" && h.device == "" && h.rest[0] != '[' {
      var m := Run(h.rest, DEVICE);
      assert Free(h.rest[..m], DEVICE);
      assert h.name != "" ==> m == 0;
      assert h.name + "" == h.name && "" + h.rest[..m] == h.rest[..m] && h.rest[..0] == "";
    }
  }

  /** Everything a parsed path's name and version consist of was still unread. */
  lemma FinishShape(o: Heading)
    requires Finish(o).Ok? && Free(o.name, VERSION)
    ensures var q := Finish(o).value;
      && q.node == o.node && q.device == o.device && Free(q.name, VERSION) && AllDirNames(q.dirs)
      && |NameText(q)| <= |o.name| + |o.rest|
      && (o.name != "" ==> q.name == o.name)
      && (o.name == "" && o.rest != "" && o.rest[0] == '[' ==> |NameText(q)| < |o.rest|)
  {
    if o.name == "" {
      if o.rest != "" && o.rest[0] == '[' { BracketShape(o.rest[1..], o.absolute); }
      hide FirstBracket, AllDirNames;
    }
  }

  lemma SecondConsumes(o: Heading)
    ensures |Second(o).name| + |Second(o).rest| <= |o.name| + |o.rest|
    ensures Second(o).node == o.node && (o.device != "" ==> Second(o).device == o.device)
  {
    if o.rest != "" { hide Run; }
  }

  /** The facts that hold of any path the parser returns. */
  lemma ParsedShape(s: string)
    requires ParseVms(s).Ok?
    ensures var q := ParseVms(s).value;
      && Free(q.node, HEAD) && Free(q.device, DEVICE) && (q.device != "" ==> q.device[0] != '[')
      && Free(q.name, VERSION) && AllDirNames(q.dirs) && Normal(q.dirs, false)
  {
    HeadShape(s);
    VmsNormalIff(s);
    hide Second, Head, Finish;
    FinishShape(Second(Head(s)));
  }

  ghost predicate Survives(p: PathValue) { ParseVms(BuildVms(p)) == Ok(p) }

  /** A run that stops inside a text free of other separators stops at one of the remaining ones. */
  lemma StopsInside(a: string, t: string, seps: set<char>)
    requires !Free(a, seps)
    ensures var n := Run(a + t, seps);
      n < |a| && (a + t)[n] == a[n] && a[n] in seps && (a + t)[..n] == a[..n]
  {
    var n := Run(a + t, seps);
    hide Run;
    if n >= |a| {
      forall i | 0 <= i < |a| ensures a[i] !in seps { assert (a + t)[..n][i] == a[i]; }
    }
  }

  lemma DeviceAtStart(p: PathValue)
    requires Survives(p) && p.node == ""
    ensures Free(p.device, HEAD)
  {
    ParsedShape(BuildVms(p));
    if !Free(p.device, HEAD) {
      var body := DirText(p.dirs, p.absolute) + NameText(p);
      var t := ":" + body;
      assert BuildVms(p) == p.device + t by { LeadText(p, body); }
      StopsInside(p.device, t, HEAD);
      hide Run, Finish, BuildVms, DirText;
      BracketAhead(p.device + t, Run(p.device + t, HEAD));
    }
  }

  /** A '[' behind the start of a name ends the search for a device. */
  lemma BracketAhead(s: string, n: nat)
    requires n == Run(s, HEAD) && 0 < n < |s| && s[n] == '[' && ParseVms(s).Ok?
    ensures var q := ParseVms(s).value; q.device == "" && q.node == "" && q.name == s[..n]
  {
    assert Second(Head(s)) == Heading("", "", false, s[..n], s[n..]);
    hide Run;
  }

  lemma ShorterName(p: PathValue, o: Heading)
    requires Finish(o) == Ok(p) && Free(o.name, VERSION)
    ensures |NameText(p)| <= |o.name| + |o.rest|
    ensures o.name == "" && o.rest != "" && o.rest[0] == '[' ==> |NameText(p)| < |o.rest|
  {
    FinishShape(o);
  }

  /** Neither node nor device nor directories: the name must not look like any of them. */
  lemma PlainNameFree(p: PathValue)
    requires Survives(p) && p.node == "" && p.device == "" && p.dirs == []
    ensures Free(p.name, HEAD)
  {
    var s := NameText(p);
    assert BuildVms(p) == s;
    ParsedShape(s);
    HeadShape(s);
    if !Free(p.name, HEAD) {
      StopsInside(p.name, if p.version != "" then ";" + p.version else "", HEAD);
      assert Free(p.name, VERSION);
      NameStopsShort(p, Run(s, HEAD));
    }
  }

  lemma NameStopsShort(p: PathValue, n: nat)
    requires p.node == "" && p.device == "" && p.dirs == [] && Free(p.name, VERSION)
    requires BuildVms(p) == NameText(p) && Free(Second(Head(NameText(p))).name, VERSION)
    requires n == Run(NameText(p), HEAD) < |p.name| && NameText(p)[n] == p.name[n] && p.name[n] in HEAD
    ensures !Survives(p)
  {
    var s := NameText(p);
    hide Run, Finish;
    assert s[n] in {':', '['};
    if s[n] == '[' {
      assert Second(Head(s)) == Heading("", "", false, s[..n], s[n..]);
      if Survives(p) { FinishShape(Second(Head(s))); }
    } else {
      SecondConsumes(Head(s));
      if Survives(p) { ShorterName(p, Second(Head(s))); }
    }
  }

  lemma NodeNameFree(p: PathValue)
    requires Survives(p) && p.node != "" && p.device == "" && p.dirs == []
    ensures Free(p.name, DEVICE) && (p.name != "" ==> p.name[0] != '[')
  {
    var t := NameText(p);
    assert BuildVms(p) == p.node + ("::" + t) by { LeadText(p, t); assert "" + t == t; }
    ParsedShape(p.node + ("::" + t));
    ReadNode(p.node, t);
    var h := Heading(p.node, "", true, "", t);
    NodeNameOnly(p, h);
  }

  lemma NodeNameOnly(p: PathValue, h: Heading)
    requires p.device == "" && h == Heading(p.node, "", true, "", NameText(p)) && Finish(Second(h)) == Ok(p)
    requires Free(p.name, VERSION)
    ensures Free(p.name, DEVICE) && (p.name != "" ==> p.name[0] != '[')
  {
    var t := NameText(p);
    if p.name != "" && p.name[0] == '[' {
      assert Second(h) == h && t[0] == '[';
      hide Finish;
      ShorterName(p, h);
    } else if !Free(p.name, DEVICE) {
      StopsInside(p.name, if p.version != "" then ";" + p.version else "", DEVICE);
      var m := Run(t, DEVICE);
      assert Second(h) == Heading(p.node, t[..m], true, "", t[m + 1..]) by { assert "" + t[..m] == t[..m]; }
      hide Finish, Run, Second;
      ShorterName(p, Second(h));
      FinishShape(Second(h));
    }
  }

  /** A device and no directories: the name must not look like a list, nor make the device look like a node. */
  lemma DeviceNameOk(p: PathValue)
    requires Survives(p) && LeadOk(p) && p.device != "" && p.dirs == []
    ensures p.absolute && (p.name != "" ==> p.name[0] != '[')
    ensures p.node == "" && p.name != "" ==> p.name[0] != ':'
  {
    var t := NameText(p);
    BodyStart(p, t);
    if p.node == "" && p.name != "" && p.name[0] == ':' {
      DoubleColon(p, t);
    } else {
      assert t != "" && p.name != "" ==> t[0] == p.name[0];
      assert BuildVms(p) == Lead(p) + t by { assert "" + t == t; }
      ReadLead(p, t);
      DeviceNameOnly(p, Heading(p.node, p.device, true, "", t));
    }
  }

  lemma DoubleColon(p: PathValue, t: string)
    requires Survives(p) && Free(p.device, HEAD) && p.node == "" && p.device != "" && p.dirs == []
    requires t == NameText(p)
    ensures t == "" || t[0] != ':'
  {
    var s := p.device + (":" + t);
    assert BuildVms(p) == s by { LeadText(p, t); assert "" + t == t; }
    TwoColons(p.device, t);
    HeadShape(s);
    hide Run, Finish, Second, Head;
    FinishShape(Second(Head(s)));
  }

  lemma TwoColons(d: string, t: string)
    requires Free(d, HEAD)
    ensures t != "" && t[0] == ':' ==> Second(Head(d + (":" + t))).node == d
  {
    if t != "" && t[0] == ':' {
      assert ":" + t == "::" + t[1..];
      ReadNode(d, t[1..]);
      SecondConsumes(Head(d + (":" + t)));
    }
  }

  lemma DeviceNameOnly(p: PathValue, h: Heading)
    requires h == Heading(p.node, p.device, true, "", NameText(p)) && Finish(h) == Ok(p)
    ensures p.absolute && (p.name != "" ==> p.name[0] != '[')
  {
    if p.name != "" && p.name[0] == '[' {
      hide Finish;
      ShorterName(p, h);
    } else {
      NameTextStart(p);
      hide FirstBracket, Run;
    }
  }

  // ----- with directories -----

  lemma FirstThenSecond(u: string, before: bool, dirs: seq<string>, absolute: bool, t: string)
    requires ReadsAs(u, dirs, absolute, t)
    ensures FirstBracket(u, before) == SecondBracket(Brackets(dirs, absolute, t))
  {
    assert ("]" + t)[1..] == t;
    hide Ups, Elements, AfterElements, SecondBracket;
  }

  /** Read back, an absolute list cannot begin with "..". */
  lemma NotUpFirst(p: PathValue, before: bool)
    requires p.dirs != [] && Normal(p.dirs, false) && AllDirNames(p.dirs)
    requires var u := (DirText(p.dirs, p.absolute) + NameText(p))[1..];
      FirstBracket(u, before).Brackets? && FirstBracket(u, before).absolute == p.absolute
    ensures Normal(p.dirs, p.absolute)
  {
    var t := NameText(p);
    DirTextStart(p.dirs, p.absolute, t);
    if p.absolute && p.dirs[0] == ".." {
      ReadFirstUp(p.dirs, t);
      var u := (DirText(p.dirs, p.absolute) + t)[1..];
      hide ReadsAs, DirText, FirstBracket, Normal;
      FirstThenSecond(u, before, p.dirs, false, t);
    }
  }

  lemma TextOfName(rest: string)
    ensures var n := Run(rest, VERSION);
      |rest[..n]| + (if VersionOf(rest[n..]) == "" then 0 else 1 + |VersionOf(rest[n..])|) <= |rest|
  {
    hide Run;
  }

  lemma NameAfterList(p: PathValue, before: bool)
    requires p.dirs != [] && Normal(p.dirs, p.absolute) && AllDirNames(p.dirs)
    requires var b := FirstBracket((DirText(p.dirs, p.absolute) + NameText(p))[1..], before);
      b.Brackets? && var n := Run(b.rest, VERSION); b.rest[..n] == p.name && VersionOf(b.rest[n..]) == p.version
    ensures p.name != "" ==> p.name[0] != '['
  {
    var t := NameText(p);
    var u := (DirText(p.dirs, p.absolute) + t)[1..];
    DirTextStart(p.dirs, p.absolute, t);
    ReadFirst(p.dirs, p.absolute, t);
    TextOfName(FirstBracket(u, before).rest);
    hide ReadsAs, DirText, FirstBracket, Normal, Tail, FirstText, Run, VersionOf;
    FirstThenSecond(u, before, p.dirs, p.absolute, t);
    if p.name != "" && p.name[0] == '[' {
      SecondShape(Brackets(p.dirs, p.absolute, t));
    }
  }

  lemma ListHeading(p: PathValue)
    requires LeadOk(p) && p.dirs != []
    ensures var body := DirText(p.dirs, p.absolute) + NameText(p);
      && body != "" && body[0] == '['
      && Second(Head(BuildVms(p))) == Heading(p.node, p.device, p.node != "" || p.device != "", "", body)
  {
    var body := DirText(p.dirs, p.absolute) + NameText(p);
    BodyStart(p, body);
    if p.node == "" && p.device == "" {
      assert Lead(p) + body == body;
      BracketHead(body);
    } else {
      ReadLead(p, body);
    }
  }

  lemma ListOk(p: PathValue)
    requires Survives(p) && LeadOk(p) && p.dirs != []
    ensures Normal(p.dirs, p.absolute) && (p.name != "" ==> p.name[0] != '[')
  {
    ParsedShape(BuildVms(p));
    ListHeading(p);
    var body := DirText(p.dirs, p.absolute) + NameText(p);
    hide Second, Head, BuildVms, DirText, FirstBracket, Normal, AllDirNames, Run;
    NotUpFirst(p, p.node != "" || p.device != "");
    NameAfterList(p, p.node != "" || p.device != "");
  }

  /** The VMS printer and parser undo each other for these paths and no others. */
  lemma VmsRoundTripIff(p: PathValue)
    ensures ParseVms(BuildVms(p)) == Ok(p) <==> CanonicalVms(p)
  {
    if CanonicalVms(p) { VmsRoundTrip(p); }
    if Survives(p) {
      hide ParseVms, BuildVms, Normal, AllDirNames;
      ParsedShape(BuildVms(p));
      if p.node == "" { DeviceAtStart(p); }
      if p.dirs != [] {
        ListOk(p);
      } else {
        EmptyIsNormal(p);
        if p.device != "" {
          DeviceNameOk(p);
        } else {
          UnlistedName(p);
        }
      }
    }
  }

  lemma EmptyIsNormal(p: PathValue)
    ensures p.dirs == [] ==> Normal(p.dirs, p.absolute)
  {
  }

  lemma UnlistedName(p: PathValue)
    requires Survives(p) && LeadOk(p) && Free(p.name, VERSION) && p.device == "" && p.dirs == []
    ensures NameOk(p) && p.absolute == (p.node != "")
  {
    if p.node == "" { PlainNameFree(p); } else { NodeNameFree(p); }
    assert NameOk(p);
    assert BuildVms(p) == Lead(p) + NameText(p) by { assert "" + NameText(p) == NameText(p); }
    ReadPlainName(p);
    PlainFinish(p);
  }
}

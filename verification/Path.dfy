/** Path: the object whose fields the parsers and edits update. */
module Path {
  import opened Common
  import opened PathSpec
  import opened PathText
  import opened PathVms

  /** The inner loops of the parsers: read up to the next separator. */
  method ReadName(s: string, from: nat, seps: set<char>) returns (name: string, it: nat)
    requires from <= |s|
    ensures from <= it <= |s| && it == from + Run(s[from..], seps)
    ensures name == s[from..it] == s[from..][..Run(s[from..], seps)]
    ensures it < |s| ==> s[it] in seps
  {
    name, it := "", from;
    while it != |s| && s[it] !in seps
      invariant from <= it <= |s| && name == s[from..it] && Free(name, seps)
    {
      name := name + [s[it]];
      it := it + 1;
    }
    RunOf(name, s[it..], seps);
    assert s[from..] == name + s[it..];
  }

  method ReadToEnd(s: string, from: nat) returns (text: string)
    requires from <= |s|
    ensures text == s[from..]
  {
    text := "";
    for it := from to |s|
      invariant text == s[from..it]
    {
      text := text + [s[it]];
    }
  }

  lemma SplitNext(s: string, it: nat, n: nat, seps: set<char>)
    requires it <= |s| && n == it + Run(s[it..], seps)
    ensures n < |s| ==>
      && Dirs(s[it..], seps) == [s[it..n]] + Dirs(s[n + 1..], seps)
      && Last(s[it..], seps) == Last(s[n + 1..], seps)
    ensures n == |s| ==> Dirs(s[it..], seps) == [] && Last(s[it..], seps) == s[it..n]
  {
    var t := s[it..];
    assert t[..n - it] == s[it..n];
    if n < |s| {
      assert t[n - it + 1..] == s[n + 1..];
      hide Run;
      Ends([s[it..n]], Split(s[n + 1..], seps));
    }
  }

  lemma SplitNothing(seps: set<char>)
    ensures Dirs("", seps) == [] && Last("", seps) == ""
  {
  }

  class Path {
    var node: string
    var device: string
    var name: string
    var version: string
    var dirs: seq<string>
    var absolute: bool

    constructor ()
      ensures Value() == EMPTY
    {
      node, device, name, version, dirs, absolute := "", "", "", "", [], false;
    }

    ghost function Value(): PathValue
      reads this
    {
      PathValue(node, device, dirs, name, version, absolute)
    }

    method Clear()
      modifies this
      ensures Value() == EMPTY
    {
      node, device, name, version, dirs, absolute := "", "", "", "", [], false;
    }

    method Assign(path: Path)
      modifies this
      ensures Value() == old(path.Value())
    {
      if path != this {
        node, device, name, version := path.node, path.device, path.name, path.version;
        dirs, absolute := path.dirs, path.absolute;
      }
    }

    method PushDirectory(dir: string)
      modifies this`dirs
      ensures dirs == Push(old(dirs), absolute, dir)
    {
      if dir != "" && dir != "." {
        if dir == ".." {
          if dirs != [] && dirs[|dirs| - 1] != ".." {
            dirs := dirs[..|dirs| - 1];
          } else if !absolute {
            dirs := dirs + [dir];
          }
        } else {
          dirs := dirs + [dir];
        }
      }
    }

    /** makeDirectory on anything but VMS. */
    method DoMakeDirectory()
      modifies this
      ensures Value() == MakeDirectory(old(Value()))
    {
      PushDirectory(name);
      name := "";
      version := "";
    }

    /** makeFile on anything but VMS. */
    method DoMakeFile()
      modifies this
      ensures Value() == MakeFile(old(Value()))
    {
      if dirs != [] && name == "" {
        name := dirs[|dirs| - 1];
        dirs := dirs[..|dirs| - 1];
      }
    }

    method DoMakeParent()
      modifies this
      ensures Value() == MakeParent(old(Value()))
    {
      if name == "" {
        if dirs == [] {
          if !absolute { dirs := dirs + [".."]; }
        } else {
          if dirs[|dirs| - 1] == ".." { dirs := dirs + [".."]; } else { dirs := dirs[..|dirs| - 1]; }
        }
      } else {
        name := "";
        version := "";
      }
    }

    method DoMakeAbsolute(base: Path)
      modifies this
      ensures Value() == MakeAbsolute(old(Value()), old(base.Value()))
    {
      if !absolute {
        var tmp := new Path();
        tmp.Assign(base);
        tmp.DoMakeDirectory();
        ghost var start, baseAbsolute := tmp.dirs, base.absolute;
        for it := 0 to |dirs|
          invariant Value() == old(Value()) && base.Value() == old(base.Value())
          invariant tmp.Value() == old(MakeDirectory(base.Value())).(dirs := PushAll(start, tmp.absolute, dirs[..it]))
        {
          assert dirs[..it + 1][..it] == dirs[..it];
          tmp.PushDirectory(dirs[it]);
        }
        assert dirs[..|dirs|] == dirs;
        var baseAbs := base.absolute;
        node := tmp.node;
        device := tmp.device;
        dirs := tmp.dirs;
        absolute := baseAbs;
      }
    }

    /** resolve; joining a relative path with itself would chase its own growing tail. */
    method DoResolve(path: Path)
      requires path != this
      modifies this
      ensures Value() == Resolve(old(Value()), path.Value())
    {
      if path.absolute {
        Assign(path);
      } else {
        for i := 0 to |path.dirs|
          invariant Value() == old(Value()).(dirs := PushAll(old(dirs), absolute, path.dirs[..i]))
        {
          assert path.dirs[..i + 1][..i] == path.dirs[..i];
          PushDirectory(path.dirs[i]);
        }
        assert path.dirs[..|path.dirs|] == path.dirs;
        name := path.name;
      }
    }

    /** parseUnix; `home` stands for the directories that home() names. */
    method DoParseUnix(path: string, home: seq<string>)
      modifies this
      ensures Value() == ParseUnix(path, home)
    {
      hide Push, Split, Run;
      Clear();
      SplitNothing(SLASH);
      var it := 0;
      if it != |path| {
        if path[it] == '/' {
          absolute := true;
          it := it + 1;
        } else if path[it] == '~' {
          it := it + 1;
          if it == |path| || path[it] == '/' {
            dirs := home;
            absolute := true;
          } else {
            it := it - 1;
          }
        }
        ghost var body := path[it..];
        assert body == if absolute then path[1..] else path;
        ghost var target := UnixDirs(Prefix(device, dirs), absolute, Dirs(body, SLASH));
        while it != |path|
          invariant it <= |path|
          invariant node == "" && version == "" && absolute == (path[0] == '/' || IsHome(path))
          invariant UnixDirs(Prefix(device, dirs), absolute, Dirs(path[it..], SLASH)) == target
          invariant if it == |path| then name == Last(body, SLASH)
            else name == "" && Last(path[it..], SLASH) == Last(body, SLASH)
        {
          var piece, n := ReadName(path, it, SLASH);
          SplitNext(path, it, n, SLASH);
          if n != |path| {
            UnixDirsConcat(Prefix(device, dirs), absolute, [piece], Dirs(path[n + 1..], SLASH));
            UnixOne(Prefix(device, dirs), absolute, piece);
            if dirs == [] {
              if EndsWithColon(piece) {
                device := piece[..|piece| - 1];
              } else {
                PushDirectory(piece);
              }
            } else {
              PushDirectory(piece);
            }
          } else {
            name := piece;
          }
          it := n;
          if it != |path| { it := it + 1; }
        }
        assert path[|path|..] == "";
      }
    }

    /** The loop that buildUnix and buildWindows share. */
    method AppendDirectories(lead: string, sep: char) returns (result: string)
      ensures result == lead + Joined(dirs, sep)
    {
      result := lead;
      for it := 0 to |dirs|
        invariant result + Joined(dirs[it..], sep) == lead + Joined(dirs, sep)
      {
        assert dirs[it..][1..] == dirs[it + 1..];
        result := result + dirs[it] + [sep];
      }
      assert dirs[|dirs|..] == [];
    }

    /** buildUnix */
    method DoBuildUnix() returns (result: string)
      ensures result == BuildUnix(Value())
    {
      result := "";
      if device != "" {
        result := "/" + device + ":/";
      } else if absolute {
        result := "/";
      }
      ghost var lead := result;
      result := AppendDirectories(result, '/');
      assert lead == UnixLead(Value());
      result := result + name;
    }

    /** parseWindows; false stands for PathSyntaxException. */
    method DoParseWindows(path: string) returns (ok: bool)
      modifies this
      ensures match ParseWindows(path)
        case Ok(p) => ok && Value() == p
        case SyntaxError => !ok
    {
      hide Push, Split, Run;
      Clear();
      SplitNothing(SLASHES);
      var it := 0;
      if it != |path| {
        if IsSlash(path[it]) {
          absolute := true;
          it := it + 1;
        }
        if absolute && it != |path| && IsSlash(path[it]) {
          it := it + 1;
          assert path[it..] == path[2..];
          node, it := ReadName(path, it, SLASHES);
          if it != |path| { it := it + 1; }
        } else if it != |path| {
          var d := path[it];
          it := it + 1;
          if it != |path| && path[it] == ':' {
            if absolute || !IsLetter(d) { return false; }
            absolute := true;
            device := device + [d];
            it := it + 1;
            if it == |path| || !IsSlash(path[it]) { return false; }
            it := it + 1;
          } else {
            it := it - 1;
          }
        }
        ghost var o := WindowsOpening(path);
        assert o == Opening(node, device, absolute, path[it..]);
        ReadWindowsNames(path, it);
      }
      if node != "" && dirs == [] && name != "" {
        DoMakeDirectory();
      }
      return true;
    }

    /** The component loop of parseWindows. */
    method ReadWindowsNames(path: string, from: nat)
      requires from <= |path| && name == ""
      modifies this`dirs, this`name
      ensures dirs == PushAll(old(dirs), absolute, Dirs(path[from..], SLASHES))
      ensures name == Last(path[from..], SLASHES)
    {
      hide Push, Split, Run;
      SplitNothing(SLASHES);
      assert path[|path|..] == "";
      var it := from;
      ghost var body, pushed := path[from..], [];
      while it != |path|
        invariant from <= it <= |path|
        invariant dirs == PushAll(old(dirs), absolute, pushed)
        invariant pushed + Dirs(path[it..], SLASHES) == Dirs(body, SLASHES)
        invariant if it == |path| then name == Last(body, SLASHES)
          else name == "" && Last(path[it..], SLASHES) == Last(body, SLASHES)
      {
        var piece, n := ReadName(path, it, SLASHES);
        SplitNext(path, it, n, SLASHES);
        if n != |path| {
          PushOne(old(dirs), absolute, pushed, piece);
          PushDirectory(piece);
          pushed := pushed + [piece];
        } else {
          name := piece;
        }
        it := n;
        if it != |path| { it := it + 1; }
      }
      assert pushed + [] == pushed;
    }

    /** buildWindows */
    method DoBuildWindows() returns (result: string)
      ensures result == BuildWindows(Value())
    {
      result := "";
      if node != "" {
        result := "\\\\" + node + "\\";
      } else if device != "" {
        result := device + ":\\";
      } else if absolute {
        result := "\\";
      }
      ghost var lead := result;
      result := AppendDirectories(result, '\\');
      assert lead == WindowsLead(Value());
      result := result + name;
    }

    /** parseVMS; false stands for PathSyntaxException. */
    method DoParseVms(path: string) returns (ok: bool)
      modifies this
      ensures match ParseVms(path)
        case Ok(p) => ok && Value() == p
        case SyntaxError => !ok
    {
      hide Run, FirstBracket, Head, Second, Finish, VersionOf;
      Clear();
      if path == "" {
        VmsEmpty();
        return true;
      }
      var text, it := ReadVmsLead(path);
      ok := ReadVmsRest(path, text, it);
    }

    /** Everything behind the node and the device. */
    method ReadVmsRest(path: string, text: string, from: nat) returns (ok: bool)
      requires from <= |path| && dirs == [] && name == "" && version == ""
      modifies this`dirs, this`absolute, this`name, this`version
      ensures var o := Heading(node, device, old(absolute), text, path[from..]);
        match Finish(o)
        case Ok(p) => ok && Value() == p
        case SyntaxError => !ok
    {
      hide Run, ListOf, Finish, VersionOf;
      ghost var o := Heading(node, device, absolute, text, path[from..]);
      FinishOf(o);
      var it := from;
      if text == "" {
        ok, it := ReadVmsList(path, it);
        if !ok { return false; }
        ghost var start := it;
        name, it := ReadName(path, it, VERSION);
        assert path[start..][it - start..] == path[it..];
      } else {
        name := text;
      }
      ReadVmsVersion(path, it);
      return true;
    }

    /** The directory list, if there is one. */
    method ReadVmsList(path: string, from: nat) returns (ok: bool, it: nat)
      requires from <= |path| && dirs == []
      modifies this`dirs, this`absolute
      ensures it <= |path|
      ensures match ListOf(path[from..], old(absolute))
        case Brackets(ds, abs, rest) => ok && dirs == ds && absolute == abs && path[it..] == rest
        case Malformed => !ok
    {
      hide FirstBracket;
      ok, it := true, from;
      if it != |path| && path[it] == '[' {
        assert path[it..][1..] == path[it + 1..];
        ok, it := ReadVmsDirectories(path, it + 1);
      }
    }

    method ReadVmsVersion(path: string, from: nat)
      requires from <= |path| && version == ""
      modifies this`version
      ensures version == VersionOf(path[from..])
    {
      if from != |path| && path[from] == ';' {
        version := ReadToEnd(path, from + 1);
      }
    }

    /** Node and device, and the beginning of a name if there is one. */
    method ReadVmsLead(path: string) returns (text: string, it: nat)
      requires path != "" && Value() == EMPTY
      modifies this`node, this`device, this`absolute
      ensures it <= |path|
      ensures Second(Head(path)) == Heading(node, device, absolute, text, path[it..])
    {
      hide Run, Head, Second;
      text, it := ReadName(path, 0, HEAD);
      assert path[0..] == path;
      HeadOf(path, it);
      if it != |path| && path[it] == ':' {
        it := it + 1;
        if it != |path| && path[it] == ':' {
          node := text;
          it := it + 1;
        } else {
          device := text;
        }
        absolute := true;
        text := "";
      }
      text, it := ReadVmsDevice(path, text, it);
    }

    /** A device behind the node, or the rest of a name. */
    method ReadVmsDevice(path: string, start: string, from: nat) returns (text: string, it: nat)
      requires from <= |path|
      modifies this`device, this`absolute
      ensures it <= |path|
      ensures Second(Heading(node, old(device), old(absolute), start, path[from..]))
           == Heading(node, device, absolute, text, path[it..])
    {
      hide Run, Second;
      text, it := start, from;
      ghost var o := Heading(node, device, absolute, text, path[it..]);
      SecondSame(o);
      if it != |path| && device == "" && path[it] != '[' {
        var more, n := ReadName(path, it, DEVICE);
        SecondOf(o, n - it);
        assert path[it..][n - it..] == path[n..];
        assert n != |path| ==> path[it..][n - it + 1..] == path[n + 1..];
        text, it := text + more, n;
        if it != |path| && path[it] == ':' {
          device := text;
          absolute := true;
          text := "";
          it := it + 1;
        }
      }
    }

    /** The one or two bracketed lists behind an opening bracket. */
    method ReadVmsDirectories(path: string, from: nat) returns (ok: bool, it: nat)
      requires from <= |path| && dirs == []
      modifies this`dirs, this`absolute
      ensures it <= |path|
      ensures ok <==> FirstBracket(path[from..], old(absolute)).Brackets?
      ensures ok ==> FirstBracket(path[from..], old(absolute)) == Brackets(dirs, absolute, path[it..])
    {
      hide Elements, AfterElements, Ups, Downs;
      it := from;
      if it == |path| { return true, it; }
      absolute := true;
      if path[it] == '.' {
        absolute := false;
        it := it + 1;
      } else if path[it] == ']' || path[it] == '-' {
        absolute := false;
      }
      it := ReadUps(path, it);
      if it == |path| { return false, it; }
      it := it + 1;
      if it != |path| && path[it] == '[' {
        if !absolute { return false, it; }
        it := it + 1;
        if it != |path| && path[it] == '.' { return false, it; }
        it := ReadDowns(path, it);
        if it == |path| { return false, it; }
        it := it + 1;
      }
      return true, it;
    }

    /** The loop over the first bracket. */
    method ReadUps(path: string, from: nat) returns (it: nat)
      requires from <= |path|
      modifies this`dirs
      ensures it <= |path| && path[it..] == AfterElements(path[from..])
      ensures dirs == Ups(old(dirs), Elements(path[from..]))
    {
      hide Run, AfterElements, Elements, Ups;
      it := from;
      while it != |path| && path[it] != ']'
        invariant it <= |path| && AfterElements(path[it..]) == AfterElements(path[from..])
        invariant Ups(dirs, Elements(path[it..])) == Ups(old(dirs), Elements(path[from..]))
      {
        ghost var i, before := it, dirs;
        var e := "-";
        if path[it] != '-' { e, it := ReadName(path, it, ELEMENT); }
        if e != "" {
          if e == "-" {
            if dirs == [] || dirs[|dirs| - 1] == ".." {
              dirs := dirs + [".."];
            } else {
              dirs := dirs[..|dirs| - 1];
            }
          } else {
            dirs := dirs + [e];
          }
        }
        if it != |path| && path[it] != ']' { it := it + 1; }
        NextElement(path, i, e, it);
        UpsStep(before, e, Elements(path[it..]));
      }
      LastElement(path[it..], dirs);
    }

    /** The loop over the second bracket. */
    method ReadDowns(path: string, from: nat) returns (it: nat)
      requires from <= |path|
      modifies this`dirs
      ensures it <= |path| && path[it..] == AfterElements(path[from..])
      ensures dirs == Downs(old(dirs), |old(dirs)|, Elements(path[from..]))
    {
      hide Run, AfterElements, Elements, Downs;
      it := from;
      var d := |dirs|;
      while it != |path| && path[it] != ']'
        invariant it <= |path| && AfterElements(path[it..]) == AfterElements(path[from..])
        invariant Downs(dirs, d, Elements(path[it..])) == Downs(old(dirs), d, Elements(path[from..]))
      {
        ghost var i, before := it, dirs;
        var e := "-";
        if path[it] != '-' { e, it := ReadName(path, it, ELEMENT); }
        if e != "" {
          if e == "-" {
            if |dirs| > d { dirs := dirs[..|dirs| - 1]; }
          } else {
            dirs := dirs + [e];
          }
        }
        if it != |path| && path[it] != ']' { it := it + 1; }
        NextElement(path, i, e, it);
        DownsStep(before, d, e, Elements(path[it..]));
      }
      LastElement(path[it..], dirs);
    }

    /** buildVMS */
    method DoBuildVms() returns (result: string)
      ensures result == BuildVms(Value())
    {
      hide Lead, NameText, DirText, BuildVms;
      result := "";
      if node != "" { result := result + node + "::"; }
      if device != "" { result := result + device + ":"; }
      VmsLead(Value(), result);
      result := AppendVmsDirectories(result);
      ghost var before := result;
      result := result + name;
      if version != "" { result := result + (";" + version); }
      VmsWhole(Value(), before, result);
    }

    /** The bracketed list of buildVMS. */
    method AppendVmsDirectories(before: string) returns (result: string)
      ensures result == before + DirText(dirs, absolute)
    {
      hide Tail, DirsFrom;
      result := before;
      if dirs != [] {
        result := result + "[";
        if !absolute && dirs[0] != ".." { result := result + "."; }
        ghost var open := result;
        for it := 0 to |dirs|
          invariant result + DirsFrom(dirs, it) == open + DirsFrom(dirs, 0)
        {
          DirsFromStep(dirs, it);
          ghost var was := result;
          if it != 0 && dirs[it] != ".." { result := result + "."; }
          if dirs[it] == ".." { result := result + "-"; } else { result := result + dirs[it]; }
          assert result + DirsFrom(dirs, it + 1) == was + DirsFrom(dirs, it);
        }
        DirsFromEnd(dirs);
        assert result == open + DirsFrom(dirs, 0);
        result := result + "]";
        VmsDirText(dirs, absolute, before, open);
      }
    }
  }

  lemma UnixOne(p: Prefix, absolute: bool, d: string)
    ensures UnixDirs(p, absolute, [d]) == UnixDir(p, absolute, d)
  {
    assert [d][..0] == [];
  }

  lemma VmsEmpty()
    ensures ParseVms("") == Ok(EMPTY)
  {
  }

  lemma HeadOf(s: string, n: nat)
    requires n == Run(s, HEAD)
    ensures Head(s) ==
      if n < |s| && s[n] == ':' then
        if n + 1 < |s| && s[n + 1] == ':' then Heading(s[..n], "", true, "", s[n + 2..])
        else Heading("", s[..n], true, "", s[n + 1..])
      else Heading("", "", false, s[..n], s[n..])
  {
  }

  lemma SecondSame(o: Heading)
    ensures o.rest == "" || o.device != "" || o.rest[0] == '[' ==> Second(o) == o
  {
  }

  lemma SecondOf(o: Heading, m: nat)
    requires o.rest != "" && o.device == "" && o.rest[0] != '[' && m == Run(o.rest, DEVICE)
    ensures var name := o.name + o.rest[..m];
      Second(o) ==
      if m < |o.rest| && o.rest[m] == ':' then
        o.(device := name, absolute := true, name := "", rest := o.rest[m + 1..])
      else o.(name := name, rest := o.rest[m..])
  {
  }

  lemma FinishOf(o: Heading)
    ensures o.name != "" ==>
      Finish(o) == Ok(PathValue(o.node, o.device, [], o.name, VersionOf(o.rest), o.absolute))
    ensures o.name == "" ==>
      var b := ListOf(o.rest, o.absolute);
      Finish(o) ==
        if b.Malformed? then SyntaxError
        else
          var n := Run(b.rest, VERSION);
          Ok(PathValue(o.node, o.device, b.dirs, b.rest[..n], VersionOf(b.rest[n..]), b.absolute))
  {
  }

  /** One turn of the element loops. */
  lemma NextElement(path: string, i: nat, e: string, it: nat)
    requires i < |path| && path[i] != ']' && it <= |path|
    requires if path[i] == '-' then e == "-" && it == i + 1
      else var n := i + Run(path[i..], ELEMENT);
        e == path[i..n] && it == if n != |path| && path[n] != ']' then n + 1 else n
    ensures Elements(path[i..]) == [e] + Elements(path[it..])
    ensures AfterElements(path[i..]) == AfterElements(path[it..])
  {
    var t := path[i..];
    hide Run;
    assert t[it - i..] == path[it..];
    if path[i] != '-' { assert t[..|e|] == e; }
  }

  lemma LastElement(t: string, dirs: seq<string>)
    requires t == "" || t[0] == ']'
    ensures Elements(t) == [] && AfterElements(t) == t && Ups(dirs, []) == dirs
    ensures forall floor: nat :: Downs(dirs, floor, []) == dirs
  {
  }

  lemma DownsStep(dirs: seq<string>, floor: nat, e: string, es: seq<string>)
    ensures Downs(dirs, floor, [e] + es) == Downs(Down(dirs, floor, e), floor, es)
  {
    assert ([e] + es)[1..] == es;
  }

  /** What the loop of buildVMS still has to write from this directory on. */
  function DirsFrom(ds: seq<string>, i: nat): string
    requires i <= |ds|
  {
    if i == 0 && ds != [] && ds[0] != ".." then ds[0] + Tail(ds[1..]) else Tail(ds[i..])
  }

  lemma VmsLead(p: PathValue, result: string)
    requires result ==
      (if p.node != "" then "" + p.node + "::" else "") + (if p.device != "" then p.device + ":" else "")
    ensures result == Lead(p)
  {
  }

  lemma VmsWhole(p: PathValue, before: string, result: string)
    requires before == Lead(p) + DirText(p.dirs, p.absolute)
    requires result == if p.version != "" then before + p.name + (";" + p.version) else before + p.name
    ensures result == BuildVms(p)
  {
    hide Lead, DirText;
    assert result == before + NameText(p);
  }

  lemma DirsFromStep(ds: seq<string>, i: nat)
    requires i < |ds|
    ensures DirsFrom(ds, i) ==
      (if i != 0 && ds[i] != ".." then "." else "") + ((if ds[i] == ".." then "-" else ds[i]) + DirsFrom(ds, i + 1))
  {
    assert ds[i..][1..] == ds[i + 1..];
  }

  lemma DirsFromEnd(ds: seq<string>)
    ensures DirsFrom(ds, |ds|) == ""
  {
  }

  lemma VmsDirText(ds: seq<string>, absolute: bool, before: string, open: string)
    requires ds != []
    requires open == before + "[" + if !absolute && ds[0] != ".." then "." else ""
    ensures open + DirsFrom(ds, 0) + "]" == before + DirText(ds, absolute)
  {
    var t := Tail(ds[1..]) + "]";
    assert DirsFrom(ds, 0) + "]" == (if ds[0] == ".." then "-" else ds[0]) + t;
    hide Tail, DirsFrom;
    assert open + (DirsFrom(ds, 0) + "]") == before + ("[" + FirstText(ds[0], absolute) + t);
  }
}

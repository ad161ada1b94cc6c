/** Paths as text: what the Unix and Windows parsers and builders compute, and how they undo each other. */
module PathText {
  import opened Common
  import opened PathSpec

  datatype Result<T> = Ok(value: T) | SyntaxError

  // ----- components -----

  const SLASH: set<char> := {'/'}
  const SLASHES: set<char> := {'\\', '/'}

  ghost predicate AllFree(ds: seq<string>, seps: set<char>) {
    forall i :: 0 <= i < |ds| ==> Free(ds[i], seps)
  }

  /** The pieces between separators; there is always at least one. */
  function Split(s: string, seps: set<char>): (r: seq<string>)
    ensures r != [] && AllFree(r, seps)
    decreases |s|
  {
    var n := Run(s, seps);
    if n == |s| then [s] else [s[..n]] + Split(s[n + 1..], seps)
  }

  function Dirs(s: string, seps: set<char>): seq<string> {
    var r := Split(s, seps);
    r[..|r| - 1]
  }

  function Last(s: string, seps: set<char>): string {
    var r := Split(s, seps);
    r[|r| - 1]
  }

  /** Each directory followed by the separator. */
  function Joined(ds: seq<string>, sep: char): string {
    if ds == [] then "" else ds[0] + [sep] + Joined(ds[1..], sep)
  }

  lemma SplitStep(a: string, sep: char, t: string, seps: set<char>)
    requires Free(a, seps) && sep in seps
    ensures Split(a + ([sep] + t), seps) == [a] + Split(t, seps)
  {
    var s := a + ([sep] + t);
    RunOf(a, [sep] + t, seps);
    hide Run, Free;
    assert s[|a| + 1..] == t && s[..|a|] == a;
  }

  lemma SplitFree(a: string, seps: set<char>)
    requires Free(a, seps)
    ensures Split(a, seps) == [a]
  {
    RunOf(a, "", seps);
    assert a + "" == a;
  }

  /** Splitting undoes joining. */
  lemma {:induction false} SplitJoined(ds: seq<string>, name: string, sep: char, seps: set<char>)
    requires AllFree(ds, seps) && Free(name, seps) && sep in seps
    ensures Split(Joined(ds, sep) + name, seps) == ds + [name]
    ensures Dirs(Joined(ds, sep) + name, seps) == ds && Last(Joined(ds, sep) + name, seps) == name
  {
    if ds == [] {
      assert Joined(ds, sep) + name == name;
      SplitFree(name, seps);
    } else {
      assert AllFree(ds[1..], seps);
      SplitJoined(ds[1..], name, sep, seps);
      hide Split;
      assert Joined(ds, sep) + name == ds[0] + ([sep] + (Joined(ds[1..], sep) + name));
      SplitStep(ds[0], sep, Joined(ds[1..], sep) + name, seps);
    }
  }

  lemma {:induction false} SplitConcat(a: string, sep: char, b: string, seps: set<char>)
    requires sep in seps
    ensures Split(a + ([sep] + b), seps) == Split(a, seps) + Split(b, seps)
    decreases |a|
  {
    var n := Run(a, seps);
    if n == |a| {
      SplitStep(a, sep, b, seps);
    } else {
      SplitConcat(a[n + 1..], sep, b, seps);
      SplitConcatStep(a, n, [sep] + b, Split(b, seps), seps);
    }
  }

  lemma SplitConcatStep(a: string, n: nat, t: string, pieces: seq<string>, seps: set<char>)
    requires n == Run(a, seps) < |a| && Split(a[n + 1..] + t, seps) == Split(a[n + 1..], seps) + pieces
    ensures Split(a + t, seps) == Split(a, seps) + pieces
  {
    assert Split(a, seps) == [a[..n]] + Split(a[n + 1..], seps);
    hide Split, Run;
    SplitStep(a[..n], a[n], a[n + 1..] + t, seps);
    Regroup(a, n, t);
    Associates([a[..n]], Split(a[n + 1..], seps), pieces);
  }

  lemma Regroup(a: string, n: nat, t: string)
    requires n < |a|
    ensures a + t == a[..n] + ([a[n]] + (a[n + 1..] + t))
  {
  }

  lemma Associates<T>(a: seq<T>, b: seq<T>, c: seq<T>)
    ensures a + b + c == a + (b + c)
  {
  }

  // ----- Unix -----

  predicate EndsWithColon(s: string) { s != "" && s[|s| - 1] == ':' }

  predicate IsHome(s: string) { s != "" && s[0] == '~' && (|s| == 1 || s[1] == '/') }

  datatype Prefix = Prefix(device: string, dirs: seq<string>)

  /** One directory component: "c:" in front of all directories names a device. */
  function UnixDir(p: Prefix, absolute: bool, d: string): Prefix {
    if p.dirs == [] && EndsWithColon(d) then p.(device := d[..|d| - 1])
    else p.(dirs := Push(p.dirs, absolute, d))
  }

  function UnixDirs(p: Prefix, absolute: bool, ds: seq<string>): Prefix {
    if ds == [] then p else UnixDir(UnixDirs(p, absolute, ds[..|ds| - 1]), absolute, ds[|ds| - 1])
  }

  /** parseUnix; `home` are the directories of the path that home() names. */
  function ParseUnix(s: string, home: seq<string>): PathValue {
    var abs := s != "" && (s[0] == '/' || IsHome(s));
    var body := if abs then s[1..] else s;
    var start := Prefix("", if IsHome(s) then home else []);
    var p := UnixDirs(start, abs, Dirs(body, SLASH));
    PathValue("", p.device, p.dirs, Last(body, SLASH), "", abs)
  }

  function UnixLead(p: PathValue): string {
    if p.device != "" then "/" + p.device + ":/" else if p.absolute then "/" else ""
  }

  /** buildUnix */
  function BuildUnix(p: PathValue): string {
    UnixLead(p) + Joined(p.dirs, '/') + p.name
  }

  /** The first thing printed after the lead. */
  function First(p: PathValue): string {
    if p.dirs == [] then p.name else p.dirs[0]
  }

  /** What a path must be like to survive printing in Unix style. */
  ghost predicate CanonicalUnix(p: PathValue) {
    && p.node == "" && p.version == ""
    && Normal(p.dirs, p.absolute)
    && AllFree(p.dirs, SLASH) && Free(p.name, SLASH) && Free(p.device, SLASH)
    && (p.device != "" ==> p.absolute)
    && (p.dirs != [] ==> !EndsWithColon(p.dirs[0]))
    && (!p.absolute ==> First(p) != "~")
  }

  lemma {:induction false} UnixDirsConcat(p: Prefix, absolute: bool, a: seq<string>, b: seq<string>)
    ensures UnixDirs(p, absolute, a + b) == UnixDirs(UnixDirs(p, absolute, a), absolute, b)
  {
    hide UnixDir;
    if b == [] {
      assert a + b == a;
    } else {
      var c, d := b[..|b| - 1], b[|b| - 1];
      UnixDirsConcat(p, absolute, a, c);
      assert (a + b)[..|a + b| - 1] == a + c;
    }
  }

  /** Without device components, the directories are simply pushed. */
  lemma {:induction false} UnixDirsArePushes(p: Prefix, absolute: bool, ds: seq<string>)
    requires forall i :: 0 <= i < |ds| ==> !EndsWithColon(ds[i])
    ensures UnixDirs(p, absolute, ds) == p.(dirs := PushAll(p.dirs, absolute, ds))
  {
    hide Push;
    if ds != [] { UnixDirsArePushes(p, absolute, ds[..|ds| - 1]); }
  }

  /** A normal stack whose first entry is no device comes back unchanged. */
  lemma {:induction false} UnixDirsRebuild(device: string, absolute: bool, ds: seq<string>)
    requires Normal(ds, absolute) && (ds != [] ==> !EndsWithColon(ds[0]))
    ensures UnixDirs(Prefix(device, []), absolute, ds) == Prefix(device, ds)
  {
    if ds != [] {
      var n := |ds| - 1;
      UnixDirsRebuild(device, absolute, ds[..n]);
      NormalIsFixed(ds, absolute);
      NormalIsFixed(ds[..n], absolute);
    }
  }

  /** What is parsed behind a lead: the pieces one after the other. */
  lemma UnixParsed(p: PathValue, tail: string, ds: seq<string>, last: string, home: seq<string>)
    requires Free(p.device, SLASH) && (p.device != "" ==> p.absolute) && Split(tail, SLASH) == ds + [last]
    requires !p.absolute ==> (tail == "" || tail[0] != '/') && !IsHome(tail)
    ensures var q := UnixDirs(Prefix(p.device, []), p.absolute, ds);
      ParseUnix(UnixLead(p) + tail, home) == PathValue("", q.device, q.dirs, last, "", p.absolute)
  {
    var s := UnixLead(p) + tail;
    hide UnixDirs, Split;
    if p.device != "" {
      assert s[0] == '/' && s[1..] == p.device + ":" + (['/'] + tail);
      SplitStep(p.device + ":", '/', tail, SLASH);
      assert Split(s[1..], SLASH) == ([p.device + ":"] + ds) + [last];
      UnixDirsConcat(Prefix("", []), true, [p.device + ":"], ds);
      UnixDevice(p.device, true);
    } else {
      assert p.absolute ==> s[0] == '/' && s[1..] == tail;
      assert !p.absolute ==> s == tail;
    }
  }

  /** Parsing undoes printing for every canonical path. */
  lemma UnixRoundTrip(p: PathValue, home: seq<string>)
    requires CanonicalUnix(p)
    ensures ParseUnix(BuildUnix(p), home) == p
  {
    var tail := Joined(p.dirs, '/') + p.name;
    assert BuildUnix(p) == UnixLead(p) + tail;
    SplitJoined(p.dirs, p.name, '/', SLASH);
    UnixDirsRebuild(p.device, p.absolute, p.dirs);
    hide Split, Joined, Normal, AllFree, UnixDirs;
    if !p.absolute { RelativeTail(p); }
    UnixParsed(p, tail, p.dirs, p.name, home);
  }

  lemma UnixDevice(device: string, absolute: bool)
    ensures UnixDirs(Prefix("", []), absolute, [device + ":"]) == Prefix(device, [])
  {
    assert [device + ":"][..0] == [];
    assert (device + ":")[..|device|] == device;
  }

  /** What home() must name for the parser's own results to be canonical. */
  ghost predicate HomeOk(home: seq<string>) {
    Normal(home, true) && AllFree(home, SLASH) && (home != [] ==> !EndsWithColon(home[0]))
  }

  ghost predicate PrefixOk(p: Prefix, absolute: bool) {
    && Normal(p.dirs, absolute) && AllFree(p.dirs, SLASH) && Free(p.device, SLASH)
    && (p.dirs != [] ==> !EndsWithColon(p.dirs[0]))
  }

  lemma UnixDirKeepsOk(p: Prefix, absolute: bool, d: string)
    requires PrefixOk(p, absolute) && Free(d, SLASH)
    ensures PrefixOk(UnixDir(p, absolute, d), absolute)
  {
    PushKeepsNormal(p.dirs, absolute, d);
    hide Normal;
  }

  lemma {:induction false} UnixDirsKeepOk(p: Prefix, absolute: bool, ds: seq<string>)
    requires PrefixOk(p, absolute) && AllFree(ds, SLASH)
    ensures PrefixOk(UnixDirs(p, absolute, ds), absolute)
  {
    hide PrefixOk, UnixDir;
    if ds != [] {
      UnixDirsKeepOk(p, absolute, ds[..|ds| - 1]);
      UnixDirKeepsOk(UnixDirs(p, absolute, ds[..|ds| - 1]), absolute, ds[|ds| - 1]);
    }
  }

  /** Whatever text is parsed, the directories come out normal. */
  lemma ParseUnixIsNormal(s: string, home: seq<string>)
    requires HomeOk(home)
    ensures var p := ParseUnix(s, home);
      && PrefixOk(Prefix(p.device, p.dirs), p.absolute) && Free(p.name, SLASH)
      && p.node == "" && p.version == ""
  {
    hide Split, Run, UnixDirs, EndsWithColon;
    assert PrefixOk(Prefix("", []), false);
    var abs := s != "" && (s[0] == '/' || IsHome(s));
    var body := if abs then s[1..] else s;
    UnixDirsKeepOk(Prefix("", if IsHome(s) then home else []), abs, Dirs(body, SLASH));
  }

  /** Exactly the canonical paths survive printing and parsing in Unix style. */
  lemma UnixRoundTripIff(p: PathValue, home: seq<string>)
    requires HomeOk(home)
    ensures ParseUnix(BuildUnix(p), home) == p <==> CanonicalUnix(p)
  {
    if CanonicalUnix(p) { UnixRoundTrip(p, home); }
    if ParseUnix(BuildUnix(p), home) == p {
      ParseUnixIsNormal(BuildUnix(p), home);
      var s, tail := BuildUnix(p), Joined(p.dirs, '/') + p.name;
      assert s == UnixLead(p) + tail;
      hide Joined, Split, UnixDirs;
      if p.device == "" && !p.absolute {
        assert s == tail;
        RelativeTail(p);
      }
    }
  }

  /** The printed form of a relative path starts with its first component. */
  lemma RelativeTail(p: PathValue)
    requires AllFree(p.dirs, SLASH) && Free(p.name, SLASH)
    requires Normal(p.dirs, false)
    ensures var t := Joined(p.dirs, '/') + p.name;
      && (t == "" || t[0] != '/')
      && (IsHome(t) <==> First(p) == "~")
  {
    if p.dirs != [] {
      var f := p.dirs[0];
      var t := Joined(p.dirs, '/') + p.name;
      assert t == f + (['/'] + Joined(p.dirs[1..], '/') + p.name);
      assert t[0] == f[0] && t[|f|] == '/';
      assert |f| > 1 ==> t[1] == f[1];
    }
  }

  /** Appending a slash to the text of a path is making a directory of it, unless the text is empty or its only
      component is read as a device. */
  lemma SlashMakesDirectoryIff(p: PathValue, home: seq<string>)
    requires CanonicalUnix(p)
    ensures ParseUnix(BuildUnix(p) + "/", home) == MakeDirectory(p)
      <==> BuildUnix(p) != "" && (p.dirs == [] ==> !EndsWithColon(p.name))
  {
    if BuildUnix(p) == "" {
      NothingSlashed(p, home);
    } else {
      hide CanonicalUnix, BuildUnix, ParseUnix, UnixDir;
      SlashedText(p, home);
      SlashedDir(p);
    }
  }

  lemma NothingSlashed(p: PathValue, home: seq<string>)
    requires CanonicalUnix(p) && BuildUnix(p) == ""
    ensures ParseUnix(BuildUnix(p) + "/", home).absolute && !MakeDirectory(p).absolute
  {
    hide Joined, Split, UnixDirs, Normal, AllFree;
    assert UnixLead(p) == "";
  }

  lemma SlashedText(p: PathValue, home: seq<string>)
    requires CanonicalUnix(p) && BuildUnix(p) != ""
    ensures var q := UnixDir(Prefix(p.device, p.dirs), p.absolute, p.name);
      ParseUnix(BuildUnix(p) + "/", home) == PathValue("", q.device, q.dirs, "", "", p.absolute)
  {
    hide Split, Joined, Normal, UnixDirs, UnixDir, ParseUnix, Push, IsHome;
    var text := Joined(p.dirs, '/') + p.name;
    UnixDirsRebuild(p.device, p.absolute, p.dirs);
    OneMoreDir(p);
    SlashedTail(p.dirs, p.name);
    if !p.absolute { SlashedRelative(p); }
    UnixParsed(p, text + "/", p.dirs + [p.name], "", home);
    assert BuildUnix(p) + "/" == UnixLead(p) + (text + "/");
  }

  lemma SlashedRelative(p: PathValue)
    requires CanonicalUnix(p) && BuildUnix(p) != "" && !p.absolute
    ensures var tail := Joined(p.dirs, '/') + p.name + "/"; tail[0] != '/' && !IsHome(tail)
  {
    var text := Joined(p.dirs, '/') + p.name;
    RelativeTail(p);
    hide Joined, Normal, AllFree;
    assert BuildUnix(p) == text;
  }

  lemma SlashedDir(p: PathValue)
    requires CanonicalUnix(p)
    ensures var q := UnixDir(Prefix(p.device, p.dirs), p.absolute, p.name);
      PathValue("", q.device, q.dirs, "", "", p.absolute) == MakeDirectory(p)
      <==> (p.dirs == [] ==> !EndsWithColon(p.name))
  {
    hide Normal, AllFree;
  }

  lemma SlashedTail(ds: seq<string>, name: string)
    requires AllFree(ds, SLASH) && Free(name, SLASH)
    ensures Split(Joined(ds, '/') + name + "/", SLASH) == (ds + [name]) + [""]
  {
    var text := Joined(ds, '/') + name;
    SplitJoined(ds, name, '/', SLASH);
    SplitFree("", SLASH);
    SplitConcat(text, '/', "", SLASH);
    hide Split, Joined;
    assert text + "/" == text + (['/'] + "");
  }

  lemma OneMoreDir(p: PathValue)
    requires UnixDirs(Prefix(p.device, []), p.absolute, p.dirs) == Prefix(p.device, p.dirs)
    ensures UnixDirs(Prefix(p.device, []), p.absolute, p.dirs + [p.name])
         == UnixDir(Prefix(p.device, p.dirs), p.absolute, p.name)
  {
    assert (p.dirs + [p.name])[..|p.dirs|] == p.dirs;
  }

  /** The text of a path with a name is the text of its parent and the name. */
  lemma ParentText(p: PathValue)
    requires p.name != ""
    ensures BuildUnix(MakeParent(p)) + p.name == BuildUnix(p)
    ensures BuildWindows(MakeParent(p)) + p.name == BuildWindows(p)
  {
    hide Joined;
  }

  /** A leading "~" stands for the home directory. */
  lemma HomeText(home: seq<string>)
    ensures ParseUnix("~", home) == ParseUnix("~/", home) == PathValue("", "", home, "", "", true)
  {
    SplitFree("", SLASH);
    SplitStep("", '/', "", SLASH);
    assert "/" == "" + (['/'] + "");
    assert "~"[1..] == "" && "~/"[1..] == "/";
    var start := Prefix("", home);
    assert Split("/", SLASH) == [""] + [""];
    hide Split;
    assert [""][..0] == [] && Dirs("/", SLASH) == [""] && Dirs("", SLASH) == [];
    assert UnixDirs(start, true, []) == start && UnixDirs(start, true, [""]) == start;
  }

  const NOTHING: Prefix := Prefix("", [])

  /** A directory component that ends in ':' names a device while no directory has been pushed. Component i matters
      when it does so behind p or on its own. */
  predicate Matters(p: Prefix, absolute: bool, ds: seq<string>, i: nat)
    requires i < |ds|
  {
    EndsWithColon(ds[i])
    && (UnixDirs(p, absolute, ds[..i]).dirs == [] || UnixDirs(NOTHING, false, ds[..i]).dirs == [])
  }

  lemma {:induction false} UnixDirsNormal(p: Prefix, absolute: bool, ds: seq<string>)
    requires Normal(p.dirs, absolute)
    ensures Normal(UnixDirs(p, absolute, ds).dirs, absolute)
  {
    hide Push, Normal;
    if ds != [] {
      var q := UnixDirs(p, absolute, ds[..|ds| - 1]);
      UnixDirsNormal(p, absolute, ds[..|ds| - 1]);
      PushKeepsNormal(q.dirs, absolute, ds[|ds| - 1]);
    }
  }

  /** Components that do not matter are pushed behind p as they are on their own. */
  lemma {:induction false} UnixDirsJoin(p: Prefix, absolute: bool, ds: seq<string>)
    requires forall i :: 0 <= i < |ds| ==> !Matters(p, absolute, ds, i)
    ensures UnixDirs(p, absolute, ds)
         == p.(dirs := PushAll(p.dirs, absolute, UnixDirs(NOTHING, false, ds).dirs))
  {
    if ds != [] {
      var n := |ds| - 1;
      var e, d := ds[..n], ds[n];
      forall i | 0 <= i < n ensures !Matters(p, absolute, e, i) {
        assert e[..i] == ds[..i] && !Matters(p, absolute, ds, i);
      }
      UnixDirsJoin(p, absolute, e);
      UnixDirsNormal(NOTHING, false, e);
      PushAgain(p.dirs, absolute, UnixDirs(NOTHING, false, e).dirs, d);
      assert !Matters(p, absolute, ds, n);
      hide Push, PushAll, Normal;
    }
  }

  /** Where the first component that matters comes last, it makes a difference unless both texts read it as the
      device that p has already. */
  lemma UnixDirsSplit(p: Prefix, absolute: bool, ds: seq<string>)
    requires ds != [] && Matters(p, absolute, ds, |ds| - 1)
    requires forall i :: 0 <= i < |ds| - 1 ==> !Matters(p, absolute, ds, i)
    ensures var e, d := ds[..|ds| - 1], ds[|ds| - 1];
      UnixDirs(p, absolute, ds) == p.(dirs := PushAll(p.dirs, absolute, UnixDirs(NOTHING, false, ds).dirs))
      <==> UnixDirs(p, absolute, e).dirs == UnixDirs(NOTHING, false, e).dirs == [] && p.device + ":" == d
  {
    var n := |ds| - 1;
    var e, d := ds[..n], ds[n];
    forall i | 0 <= i < n ensures !Matters(p, absolute, e, i) {
      assert e[..i] == ds[..i] && !Matters(p, absolute, ds, i);
    }
    UnixDirsJoin(p, absolute, e);
    UnixDirsNormal(NOTHING, false, e);
    hide PushAll, Push, Normal, UnixDir;
    DeviceCase(p, absolute, UnixDirs(NOTHING, false, e), d);
  }

  lemma DeviceCase(p: Prefix, absolute: bool, q: Prefix, d: string)
    requires EndsWithColon(d) && Normal(q.dirs, false)
    requires q.dirs == [] || PushAll(p.dirs, absolute, q.dirs) == []
    ensures var r := p.(dirs := PushAll(p.dirs, absolute, q.dirs));
      UnixDir(r, absolute, d) == p.(dirs := PushAll(p.dirs, absolute, UnixDir(q, false, d).dirs))
      <==> r.dirs == q.dirs == [] && p.device + ":" == d
  {
    var r := p.(dirs := PushAll(p.dirs, absolute, q.dirs));
    assert d == d[..|d| - 1] + ":";
    assert (p.device + ":")[..|p.device|] == p.device;
    PushAgain(p.dirs, absolute, q.dirs, d);
    hide PushAll, Normal;
    if r.dirs != [] {
      assert Push(r.dirs, absolute, d) == r.dirs + [d];
    } else if q.dirs != [] {
      assert Push(r.dirs, absolute, d) == [d];
    }
  }

  /** Where parsing a text leaves off when it ends in a slash. */
  function Parsed(a: string, home: seq<string>): Prefix {
    var p := ParseUnix(a, home);
    Prefix(p.device, p.dirs)
  }

  /** What the second text's directories do behind the first text. */
  lemma UnixConcat(a: string, b: string, home: seq<string>)
    requires a != "" && a[|a| - 1] == '/'
    requires (b == "" || b[0] != '/') && !IsHome(b)
    ensures var p, q := ParseUnix(a, home), UnixDirs(Parsed(a, home), ParseUnix(a, home).absolute, Dirs(b, SLASH));
      && ParseUnix(a + b, home) == PathValue("", q.device, q.dirs, Last(b, SLASH), "", p.absolute)
      && var u := ParseUnix(b, home);
         u == PathValue("", u.device, UnixDirs(NOTHING, false, Dirs(b, SLASH)).dirs, Last(b, SLASH), "", false)
  {
    var s := a + b;
    var abs := a[0] == '/' || IsHome(a);
    assert s[0] == a[0] && (|a| > 1 ==> s[1] == a[1]) && IsHome(s) == IsHome(a);
    var start := Prefix("", if IsHome(a) then home else []);
    var body := if abs then a[1..] else a;
    assert (if abs then s[1..] else s) == body + b;
    BodyConcat(body, b);
    UnixDirsConcat(start, abs, Dirs(body, SLASH), Dirs(b, SLASH));
    hide UnixDirs, Split;
  }

  /** Parsing a directory text followed by a relative text is joining the two parsed paths, when no component of the
      second text matters as a device. */
  lemma UnixConcatIsResolve(a: string, b: string, home: seq<string>)
    requires a != "" && a[|a| - 1] == '/'
    requires (b == "" || b[0] != '/') && !IsHome(b)
    requires forall i :: 0 <= i < |Dirs(b, SLASH)| ==>
      !Matters(Parsed(a, home), ParseUnix(a, home).absolute, Dirs(b, SLASH), i)
    ensures ParseUnix(a + b, home) == Resolve(ParseUnix(a, home), ParseUnix(b, home))
  {
    UnixConcat(a, b, home);
    UnixDirsJoin(Parsed(a, home), ParseUnix(a, home).absolute, Dirs(b, SLASH));
    LastOfSlashed(a, home);
    hide UnixDirs, Split, ParseUnix;
  }

  /** When its last directory is the first one that matters, the law holds exactly if that component is read as a
      device both times, and as the one that the first text names. */
  lemma UnixConcatDeviceIff(a: string, b: string, home: seq<string>)
    requires a != "" && a[|a| - 1] == '/'
    requires (b == "" || b[0] != '/') && !IsHome(b)
    requires var p, abs, ds := Parsed(a, home), ParseUnix(a, home).absolute, Dirs(b, SLASH);
      && ds != [] && Matters(p, abs, ds, |ds| - 1)
      && forall i :: 0 <= i < |ds| - 1 ==> !Matters(p, abs, ds, i)
    ensures var p, abs, ds := Parsed(a, home), ParseUnix(a, home).absolute, Dirs(b, SLASH);
      var e, d := ds[..|ds| - 1], ds[|ds| - 1];
      ParseUnix(a + b, home) == Resolve(ParseUnix(a, home), ParseUnix(b, home))
      <==> UnixDirs(p, abs, e).dirs == UnixDirs(NOTHING, false, e).dirs == [] && p.device + ":" == d
  {
    UnixConcat(a, b, home);
    UnixDirsSplit(Parsed(a, home), ParseUnix(a, home).absolute, Dirs(b, SLASH));
    LastOfSlashed(a, home);
    hide UnixDirs, Split, ParseUnix;
  }

  lemma LastOfSlashed(a: string, home: seq<string>)
    requires a != "" && a[|a| - 1] == '/'
    ensures var p := ParseUnix(a, home); p.name == "" && p.node == "" && p.version == ""
  {
    var body := if a[0] == '/' || IsHome(a) then a[1..] else a;
    BodyConcat(body, "");
    hide Split, UnixDirs;
  }

  lemma BodyConcat(body: string, b: string)
    requires body == "" || body[|body| - 1] == '/'
    ensures Dirs(body + b, SLASH) == Dirs(body, SLASH) + Dirs(b, SLASH)
    ensures Last(body + b, SLASH) == Last(b, SLASH) && Last(body, SLASH) == ""
  {
    SplitFree("", SLASH);
    if body == "" {
      assert body + b == b;
    } else {
      var c := body[..|body| - 1];
      assert body + b == c + (['/'] + b) && body == c + (['/'] + "");
      SplitConcat(c, '/', b, SLASH);
      SplitConcat(c, '/', "", SLASH);
      hide Split;
      Ends(Split(c, SLASH), Split(b, SLASH));
      Ends(Split(c, SLASH), [""]);
    }
  }

  lemma Ends(x: seq<string>, y: seq<string>)
    requires y != []
    ensures (x + y)[..|x + y| - 1] == x + y[..|y| - 1] && (x + y)[|x + y| - 1] == y[|y| - 1]
  {
  }

  // ----- Windows -----

  predicate IsSlash(c: char) { c == '\\' || c == '/' }

  predicate IsLetter(c: char) { 'a' <= c <= 'z' || 'A' <= c <= 'Z' }

  /** What the parser reads before the directories: the path so far, and the text that is left. */
  datatype Opening = Opening(node: string, device: string, absolute: bool, rest: string) | Bad

  function WindowsOpening(s: string): Opening {
    if s == "" then Opening("", "", false, "")
    else
      var abs := IsSlash(s[0]);
      if abs && |s| > 1 && IsSlash(s[1]) then
        var t := s[2..];
        var n := Run(t, SLASHES);
        Opening(t[..n], "", true, if n < |t| then t[n + 1..] else "")
      else
        var t := if abs then s[1..] else s;
        if |t| > 1 && t[1] == ':' then
          if abs || !IsLetter(t[0]) || |t| == 2 || !IsSlash(t[2]) then Bad
          else Opening("", t[..1], true, t[3..])
        else Opening("", "", abs, t)
  }

  function WindowsRest(o: Opening): PathValue
    requires o.Opening?
  {
    var dirs := PushAll([], o.absolute, Dirs(o.rest, SLASHES));
    var p := PathValue(o.node, o.device, dirs, Last(o.rest, SLASHES), "", o.absolute);
    if p.node != "" && p.dirs == [] && p.name != "" then MakeDirectory(p) else p
  }

  /** parseWindows; PathSyntaxException becomes SyntaxError. */
  function ParseWindows(s: string): Result<PathValue> {
    var o := WindowsOpening(s);
    if o.Bad? then SyntaxError else Ok(WindowsRest(o))
  }

  function WindowsLead(p: PathValue): string {
    if p.node != "" then "\\\\" + p.node + "\\"
    else if p.device != "" then p.device + ":\\"
    else if p.absolute then "\\"
    else ""
  }

  /** buildWindows */
  function BuildWindows(p: PathValue): string {
    WindowsLead(p) + Joined(p.dirs, '\\') + p.name
  }

  /** What a path must be like to survive printing in Windows style. */
  ghost predicate CanonicalWindows(p: PathValue) {
    && p.version == ""
    && Normal(p.dirs, p.absolute)
    && AllFree(p.dirs, SLASHES) && Free(p.name, SLASHES) && Free(p.node, SLASHES)
    && (p.node != "" ==> p.absolute && p.device == "" && (p.dirs == [] ==> p.name == ""))
    && (p.device != "" ==> p.absolute && |p.device| == 1 && IsLetter(p.device[0]))
    && (p.node == "" && p.device == "" ==> !LooksLikeDrive(First(p)))
  }

  predicate LooksLikeDrive(s: string) { |s| > 1 && s[1] == ':' }

  lemma OpeningOfBuilt(p: PathValue)
    requires CanonicalWindows(p)
    ensures WindowsOpening(BuildWindows(p))
         == Opening(p.node, p.device, p.absolute, Joined(p.dirs, '\\') + p.name)
  {
    var s, tail := BuildWindows(p), Joined(p.dirs, '\\') + p.name;
    assert s == WindowsLead(p) + tail;
    WindowsTail(p);
    hide Joined, Normal, AllFree;
    if p.node != "" {
      NodeOpening(p.node, tail);
    } else if p.device != "" {
      DeviceOpening(p.device, tail);
    } else {
      PlainOpening(p.absolute, tail);
    }
  }

  lemma NodeOpening(node: string, tail: string)
    requires node != "" && Free(node, SLASHES)
    ensures WindowsOpening("\\\\" + node + "\\" + tail) == Opening(node, "", true, tail)
  {
    var s, t := "\\\\" + node + "\\" + tail, node + ("\\" + tail);
    assert s[0] == '\\' && s[1] == '\\' && s[2..] == t;
    RunOf(node, "\\" + tail, SLASHES);
    hide Run;
    assert t[..|node|] == node && t[|node| + 1..] == tail;
  }

  lemma DeviceOpening(device: string, tail: string)
    requires |device| == 1 && IsLetter(device[0])
    ensures WindowsOpening(device + ":\\" + tail) == Opening("", device, true, tail)
  {
    hide Run;
    var s := device + ":\\" + tail;
    assert s[0] == device[0] && s[1] == ':' && s[2] == '\\' && s[..1] == device && s[3..] == tail;
  }

  lemma PlainOpening(absolute: bool, tail: string)
    requires (tail == "" || !IsSlash(tail[0])) && !LooksLikeDrive(tail)
    ensures WindowsOpening((if absolute then "\\" else "") + tail) == Opening("", "", absolute, tail)
  {
    hide Run;
    var s := (if absolute then "\\" else "") + tail;
    if absolute {
      assert s[0] == '\\' && s[1..] == tail;
      assert tail != "" ==> s[1] == tail[0];
    } else {
      assert s == tail;
    }
  }

  /** How the part after the lead begins. */
  lemma WindowsTail(p: PathValue)
    requires AllFree(p.dirs, SLASHES) && Free(p.name, SLASHES) && Normal(p.dirs, p.absolute)
    ensures var t := Joined(p.dirs, '\\') + p.name;
      && (t == "" || !IsSlash(t[0]))
      && (LooksLikeDrive(t) <==> LooksLikeDrive(First(p)))
  {
    if p.dirs != [] {
      var f := p.dirs[0];
      var t := Joined(p.dirs, '\\') + p.name;
      assert t == f + (['\\'] + Joined(p.dirs[1..], '\\') + p.name);
      assert t[0] == f[0] && t[|f|] == '\\';
      assert |f| > 1 ==> t[1] == f[1];
    }
  }

  lemma WindowsRoundTrip(p: PathValue)
    requires CanonicalWindows(p)
    ensures ParseWindows(BuildWindows(p)) == Ok(p)
  {
    OpeningOfBuilt(p);
    SplitJoined(p.dirs, p.name, '\\', SLASHES);
    NormalIsFixed(p.dirs, p.absolute);
  }

  /** Whatever text is accepted, the result is normal and its parts are free of separators. */
  lemma ParseWindowsIsNormal(s: string)
    requires ParseWindows(s).Ok?
    ensures var p := ParseWindows(s).value;
      && p.version == "" && Normal(p.dirs, p.absolute)
      && AllFree(p.dirs, SLASHES) && Free(p.name, SLASHES) && Free(p.node, SLASHES)
      && (p.node != "" ==> p.absolute && p.device == "" && (p.dirs == [] ==> p.name == ""))
      && (p.device != "" ==> p.absolute && |p.device| == 1 && IsLetter(p.device[0]))
  {
    var o := WindowsOpening(s);
    var ds := Dirs(o.rest, SLASHES);
    PushAllKeepsNormal([], o.absolute, ds);
    PushAllFree([], o.absolute, ds, SLASHES);
    PushKeepsNormal(PushAll([], o.absolute, ds), o.absolute, Last(o.rest, SLASHES));
    assert o.node != "" ==> o.absolute && o.device == "" && Free(o.node, SLASHES);
    assert o.device != "" ==> o.absolute && |o.device| == 1 && IsLetter(o.device[0]);
    hide WindowsOpening, Split, Normal;
  }

  lemma {:induction false} PushAllFree(dirs: seq<string>, absolute: bool, ds: seq<string>, seps: set<char>)
    requires AllFree(dirs, seps) && AllFree(ds, seps)
    ensures AllFree(PushAll(dirs, absolute, ds), seps)
  {
    if ds != [] { PushAllFree(dirs, absolute, ds[..|ds| - 1], seps); }
  }

  /** Exactly the canonical paths survive printing and parsing in Windows style. */
  lemma WindowsRoundTripIff(p: PathValue)
    ensures ParseWindows(BuildWindows(p)) == Ok(p) <==> CanonicalWindows(p)
  {
    if CanonicalWindows(p) { WindowsRoundTrip(p); }
    if ParseWindows(BuildWindows(p)) == Ok(p) {
      ParseWindowsIsNormal(BuildWindows(p));
      hide Joined, Split, Normal, AllFree, BuildWindows, ParseWindows;
      if p.node == "" && p.device == "" && LooksLikeDrive(First(p)) { DriveIsLost(p); }
    }
  }

  /** With a device, the flag for absolute paths is not printed: a relative path is read back as an absolute one,
      and comes back otherwise unchanged exactly when its absolute form is canonical. */
  lemma DeviceReadsAbsolute(p: PathValue)
    requires p.node == "" && p.device != ""
    ensures var q, r := p.(absolute := true), ParseWindows(BuildWindows(p));
      && BuildWindows(p) == BuildWindows(q)
      && (|p.device| == 1 && IsLetter(p.device[0]) ==> r.Ok? && r.value.absolute && r.value.device == p.device)
      && (r == Ok(q) <==> CanonicalWindows(q))
  {
    WindowsRoundTripIff(p.(absolute := true));
    hide CanonicalWindows, Joined, Run, Split;
    if |p.device| == 1 && IsLetter(p.device[0]) {
      var tail := Joined(p.dirs, '\\') + p.name;
      assert BuildWindows(p) == p.device + ":\\" + tail;
      DeviceOpening(p.device, tail);
    }
  }

  /** The Unix parser produces such paths. */
  lemma RelativeDevice(home: seq<string>)
    ensures var p := PathValue("", "C", [], "x", "", false);
      && ParseUnix("C:/x", home) == p
      && ParseWindows(BuildWindows(p)) == Ok(p.(absolute := true))
  {
    DeviceText("C", "x");
    assert "C" + ":/" + "x" == "C:/x";
    UnixDevice("C", false);
    hide Split, UnixDirs, ParseWindows, BuildWindows;
    DeviceReadsAbsolute(PathValue("", "C", [], "x", "", false));
  }

  lemma DeviceText(device: string, name: string)
    requires device != "" && Free(device, SLASH) && Free(name, SLASH)
    ensures var s := device + ":/" + name;
      s[0] == device[0] && s[1] != '/' && Dirs(s, SLASH) == [device + ":"] && Last(s, SLASH) == name
  {
    hide Split;
    assert device + ":/" + name == (device + ":") + (['/'] + name);
    SplitStep(device + ":", '/', name, SLASH);
    SplitFree(name, SLASH);
  }

  lemma DriveIsLost(p: PathValue)
    requires p.node == "" && p.device == "" && LooksLikeDrive(First(p))
    requires AllFree(p.dirs, SLASHES) && Free(p.name, SLASHES) && Normal(p.dirs, p.absolute)
    ensures ParseWindows(BuildWindows(p)) != Ok(p)
  {
    var s, tail := BuildWindows(p), Joined(p.dirs, '\\') + p.name;
    assert s == if p.absolute then "\\" + tail else tail;
    WindowsTail(p);
    hide Joined, Split, Normal, AllFree;
    DriveIsNotPlain(tail);
  }

  /** A text that looks like a drive is never read as a path without device. */
  lemma DriveIsNotPlain(tail: string)
    requires LooksLikeDrive(tail) && !IsSlash(tail[0])
    ensures WindowsOpening("\\" + tail).Bad?
    ensures WindowsOpening(tail).Bad? || WindowsOpening(tail).device != ""
  {
    assert ("\\" + tail)[1..] == tail;
  }

  // ----- which Windows texts are accepted, and as what -----

  /** With every '/' turned into a backslash. */
  function Backslashed(s: string): (r: string)
    ensures |r| == |s|
  {
    seq(|s|, i requires 0 <= i < |s| => if s[i] == '/' then '\\' else s[i])
  }

  lemma {:induction false} RunBackslashed(s: string)
    ensures Run(Backslashed(s), SLASHES) == Run(s, SLASHES)
  {
    if s != "" {
      assert Backslashed(s)[1..] == Backslashed(s[1..]);
      RunBackslashed(s[1..]);
    }
  }

  lemma {:induction false} SplitBackslashed(s: string)
    ensures Split(Backslashed(s), SLASHES) == Split(s, SLASHES)
    decreases |s|
  {
    hide Run, Split, Backslashed;
    var n := Run(s, SLASHES);
    RunBackslashed(s);
    FreeBackslashed(s, n);
    SplitAt(s, SLASHES);
    SplitAt(Backslashed(s), SLASHES);
    if n < |s| {
      BackslashedTail(s, n + 1);
      SplitBackslashed(s[n + 1..]);
    } else {
      assert s[..n] == s && Backslashed(s)[..n] == Backslashed(s);
    }
  }

  lemma BackslashedTail(s: string, k: nat)
    requires k <= |s|
    ensures Backslashed(s)[k..] == Backslashed(s[k..])
  {
  }

  lemma SplitAt(s: string, seps: set<char>)
    ensures var n := Run(s, seps);
      Split(s, seps) == if n == |s| then [s] else [s[..n]] + Split(s[n + 1..], seps)
  {
    hide Run;
  }

  lemma FreeBackslashed(s: string, n: nat)
    requires n <= |s| && Free(s[..n], SLASHES)
    ensures Backslashed(s)[..n] == s[..n]
  {
    forall i | 0 <= i < n ensures Backslashed(s)[i] == s[i] { assert s[..n][i] == s[i]; }
  }

  /** It makes no difference which kind of slash a text has. */
  lemma SlashKind(s: string)
    ensures ParseWindows(Backslashed(s)) == ParseWindows(s)
  {
    OpeningBackslashed(s);
    var o := WindowsOpening(s);
    hide WindowsOpening, Split;
    if o.Opening? { SplitBackslashed(o.rest); }
  }

  lemma OpeningBackslashed(s: string)
    ensures var o, r := WindowsOpening(s), WindowsOpening(Backslashed(s));
      if o.Bad? then r.Bad? else r == o.(rest := Backslashed(o.rest))
  {
    var b := Backslashed(s);
    if |s| > 1 && IsSlash(s[0]) && IsSlash(s[1]) {
      var t := s[2..];
      RunBackslashed(t);
      FreeBackslashed(t, Run(t, SLASHES));
      hide Run;
      assert b[2..] == Backslashed(t);
      assert forall k :: 0 <= k <= |t| ==> Backslashed(t)[k..] == Backslashed(t[k..]);
    } else {
      hide Run;
      assert forall k :: 0 <= k <= |s| ==> b[k..] == Backslashed(s[k..]);
      assert s != "" && IsLetter(s[0]) ==> b[0] == s[0];
    }
  }

  /** A text is refused exactly when a ':' stands where a drive's would, but no letter before it, no slash behind it,
      or a slash in front. What is accepted is absolute if it begins with a slash or a drive. */
  lemma WindowsAccepts(s: string)
    ensures var slash := s != "" && s[0] in {'\\', '/'};
      var node := slash && |s| > 1 && s[1] in {'\\', '/'};
      var colon := !node && if slash then |s| > 2 && s[2] == ':' else |s| > 1 && s[1] == ':';
      var drive := colon && !slash && ('a' <= s[0] <= 'z' || 'A' <= s[0] <= 'Z') && |s| > 2 && s[2] in {'\\', '/'};
      && (ParseWindows(s).Ok? <==> !colon || drive)
      && (ParseWindows(s).Ok? ==> var p := ParseWindows(s).value;
            && (p.absolute <==> slash || drive)
            && p.device == (if drive then s[..1] else "")
            && (!node ==> p.node == ""))
  {
    hide Run, Split;
  }

  /** Behind a node, a lone name is a directory. */
  lemma NodeName(node: string, name: string)
    requires node != "" && Free(node, SLASHES) && Free(name, SLASHES) && name != "" && name != "." && name != ".."
    ensures ParseWindows("\\\\" + node + "\\" + name) == Ok(PathValue(node, "", [name], "", "", true))
  {
    NodeOpening(node, name);
    SplitFree(name, SLASHES);
    var s := "\\\\" + node + "\\" + name;
    hide WindowsOpening, Split;
    assert WindowsOpening(s) == Opening(node, "", true, name);
    assert Dirs(name, SLASHES) == [] && Last(name, SLASHES) == name;
    assert PushAll([], true, []) == [];
    var p := PathValue(node, "", [], name, "", true);
    assert WindowsRest(Opening(node, "", true, name)) == MakeDirectory(p);
    assert [] + [name] == [name];
  }
}

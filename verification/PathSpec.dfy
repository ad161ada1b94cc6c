/** Paths as values: directory stacks, their normal form, and the algebra of joining them. */
module PathSpec {

  datatype PathValue = PathValue(node: string, device: string, dirs: seq<string>, name: string,
                                 version: string, absolute: bool)

  const EMPTY: PathValue := PathValue("", "", [], "", "", false)

  // ----- the directory stack -----

  /** pushDirectory on anything but VMS. */
  function Push(dirs: seq<string>, absolute: bool, d: string): seq<string> {
    if d == "" || d == "." then dirs
    else if d == ".." then
      if dirs != [] && dirs[|dirs| - 1] != ".." then dirs[..|dirs| - 1]
      else if !absolute then dirs + [d]
      else dirs
    else dirs + [d]
  }

  function PushAll(dirs: seq<string>, absolute: bool, ds: seq<string>): seq<string> {
    if ds == [] then dirs else Push(PushAll(dirs, absolute, ds[..|ds| - 1]), absolute, ds[|ds| - 1])
  }

  /** No empty or "." directory, ".." only in front, and no ".." at all when absolute. */
  ghost predicate Normal(dirs: seq<string>, absolute: bool) {
    && (forall i :: 0 <= i < |dirs| ==> dirs[i] != "" && dirs[i] != ".")
    && (forall i, j :: 0 <= i < j < |dirs| && dirs[j] == ".." ==> dirs[i] == "..")
    && (absolute ==> forall i :: 0 <= i < |dirs| ==> dirs[i] != "..")
  }

  lemma PushKeepsNormal(dirs: seq<string>, absolute: bool, d: string)
    requires Normal(dirs, absolute)
    ensures Normal(Push(dirs, absolute, d), absolute)
  {
  }

  lemma {:induction false} PushAllKeepsNormal(dirs: seq<string>, absolute: bool, ds: seq<string>)
    requires Normal(dirs, absolute)
    ensures Normal(PushAll(dirs, absolute, ds), absolute)
  {
    hide Push, Normal;
    if ds != [] {
      PushAllKeepsNormal(dirs, absolute, ds[..|ds| - 1]);
      PushKeepsNormal(PushAll(dirs, absolute, ds[..|ds| - 1]), absolute, ds[|ds| - 1]);
    }
  }

  lemma PushOne(dirs: seq<string>, absolute: bool, ds: seq<string>, d: string)
    ensures PushAll(dirs, absolute, ds + [d]) == Push(PushAll(dirs, absolute, ds), absolute, d)
  {
    assert (ds + [d])[..|ds|] == ds;
  }

  lemma {:induction false} PushAllConcat(dirs: seq<string>, absolute: bool, a: seq<string>, b: seq<string>)
    ensures PushAll(dirs, absolute, a + b) == PushAll(PushAll(dirs, absolute, a), absolute, b)
  {
    hide Push;
    if b == [] {
      assert a + b == a;
    } else {
      var c, d := b[..|b| - 1], b[|b| - 1];
      PushAllConcat(dirs, absolute, a, c);
      PushOne(dirs, absolute, a + c, d);
      assert a + b == a + c + [d];
    }
  }

  lemma PushFirst(dirs: seq<string>, absolute: bool, d: string, ds: seq<string>)
    ensures PushAll(dirs, absolute, [d] + ds) == PushAll(Push(dirs, absolute, d), absolute, ds)
  {
    PushAllConcat(dirs, absolute, [d], ds);
    assert [d][..0] == [];
    assert PushAll(dirs, absolute, [d]) == Push(PushAll(dirs, absolute, []), absolute, d);
  }

  /** A normal stack is what pushing its own entries gives. */
  lemma {:induction false} NormalIsFixed(dirs: seq<string>, absolute: bool)
    requires Normal(dirs, absolute)
    ensures PushAll([], absolute, dirs) == dirs
  {
    if dirs != [] {
      var n := |dirs| - 1;
      NormalIsFixed(dirs[..n], absolute);
      if dirs[n] == ".." && n > 0 { assert dirs[..n][n - 1] == ".."; }
    }
  }

  /** Confluence: normalising a relative run of components first makes no difference to where it leads. */
  lemma {:induction false} PushNormalised(dirs: seq<string>, absolute: bool, ds: seq<string>)
    ensures PushAll(dirs, absolute, PushAll([], false, ds)) == PushAll(dirs, absolute, ds)
  {
    if ds != [] {
      var e, x := ds[..|ds| - 1], ds[|ds| - 1];
      PushNormalised(dirs, absolute, e);
      PushAllKeepsNormal([], false, e);
      PushAgain(dirs, absolute, PushAll([], false, e), x);
    }
  }

  lemma PushAgain(dirs: seq<string>, absolute: bool, n: seq<string>, x: string)
    requires Normal(n, false)
    ensures PushAll(dirs, absolute, Push(n, false, x)) == Push(PushAll(dirs, absolute, n), absolute, x)
  {
    if x == ".." && n != [] && n[|n| - 1] != ".." {
      var m, last := n[..|n| - 1], n[|n| - 1];
      assert n == m + [last];
      PushOne(dirs, absolute, m, last);
      hide PushAll;
      assert Push(PushAll(dirs, absolute, m), absolute, last) == PushAll(dirs, absolute, m) + [last];
    } else if x != "" && x != "." {
      PushOne(dirs, absolute, n, x);
    }
  }

  // ----- the edits of Path, as functions -----

  function MakeDirectory(p: PathValue): PathValue {
    p.(dirs := Push(p.dirs, p.absolute, p.name), name := "", version := "")
  }

  function MakeFile(p: PathValue): PathValue {
    if p.dirs != [] && p.name == "" then p.(dirs := p.dirs[..|p.dirs| - 1], name := p.dirs[|p.dirs| - 1]) else p
  }

  function MakeParent(p: PathValue): PathValue {
    if p.name != "" then p.(name := "", version := "")
    else if p.dirs == [] then
      if p.absolute then p else p.(dirs := [".."])
    else if p.dirs[|p.dirs| - 1] == ".." then p.(dirs := p.dirs + [".."])
    else p.(dirs := p.dirs[..|p.dirs| - 1])
  }

  function MakeAbsolute(p: PathValue, base: PathValue): PathValue {
    if p.absolute then p
    else
      var tmp := MakeDirectory(base);
      p.(node := tmp.node, device := tmp.device, dirs := PushAll(tmp.dirs, tmp.absolute, p.dirs),
         absolute := base.absolute)
  }

  function Resolve(p: PathValue, q: PathValue): PathValue {
    if q.absolute then q else p.(dirs := PushAll(p.dirs, p.absolute, q.dirs), name := q.name)
  }

  ghost predicate NormalPath(p: PathValue) { Normal(p.dirs, p.absolute) }

  lemma EditsKeepNormal(p: PathValue, q: PathValue)
    requires NormalPath(p) && NormalPath(q)
    ensures NormalPath(MakeDirectory(p)) && NormalPath(MakeParent(p))
    ensures NormalPath(MakeAbsolute(p, q)) && NormalPath(Resolve(p, q))
  {
    PushKeepsNormal(p.dirs, p.absolute, p.name);
    PushKeepsNormal(q.dirs, q.absolute, q.name);
    assert NormalPath(MakeParent(p));
    hide Push, Normal;
    PushAllKeepsNormal(Push(q.dirs, q.absolute, q.name), q.absolute, p.dirs);
    PushAllKeepsNormal(p.dirs, p.absolute, q.dirs);
  }

  /** The parent of a directory is the directory joined with "..". */
  lemma ParentIsDotDot(p: PathValue)
    requires NormalPath(p) && p.name == ""
    ensures MakeParent(p) == p.(dirs := Push(p.dirs, p.absolute, ".."))
  {
  }

  /** Making a directory of a plain name and going to its parent leads back. */
  lemma ParentOfDirectory(p: PathValue)
    requires p.name != "" && p.name != "." && p.name != ".."
    ensures MakeParent(MakeDirectory(p)) == p.(name := "", version := "")
    ensures MakeDirectory(p).dirs == p.dirs + [p.name] && MakeDirectory(p).name == MakeDirectory(p).version == ""
  {
  }

  /** Making a file and making a directory undo each other. */
  lemma FileAndDirectory(p: PathValue)
    requires NormalPath(p)
    ensures MakeDirectory(MakeFile(p)) == MakeDirectory(p) && NormalPath(MakeFile(p))
    ensures p.name != "" && p.name != "." && p.name != ".." ==> MakeFile(MakeDirectory(p)) == p.(version := "")
  {
  }

  /** The parent of a path with a name is the directory it is in. */
  lemma ParentOfFile(p: PathValue)
    requires p.name != ""
    ensures var r := MakeParent(p); r.name == r.version == "" && r.(name := p.name, version := p.version) == p
  {
  }

  /** What a join takes from which side. */
  lemma ResolveParts(p: PathValue, q: PathValue)
    ensures q.absolute ==> Resolve(p, q) == q
    ensures !q.absolute ==> var r := Resolve(p, q);
      && r.node == p.node && r.device == p.device && r.version == p.version && r.absolute == p.absolute
      && r.name == q.name && r.dirs == PushAll(p.dirs, p.absolute, q.dirs)
  {
  }

  /** Joining is associative: it does not matter which of two joins is done first. */
  lemma ResolveAssociates(p: PathValue, q: PathValue, r: PathValue)
    requires NormalPath(q)
    ensures Resolve(Resolve(p, q), r) == Resolve(p, Resolve(q, r))
  {
    if !q.absolute && !r.absolute {
      NormalIsFixed(q.dirs, false);
      PushAllConcat([], false, q.dirs, r.dirs);
      PushNormalised(p.dirs, p.absolute, q.dirs + r.dirs);
      PushAllConcat(p.dirs, p.absolute, q.dirs, r.dirs);
    }
  }

  /** An absolute path stays as it is; making another one absolute against a base is joining the base's directory with
      the path. */
  lemma MakeAbsoluteIsResolve(p: PathValue, base: PathValue)
    ensures p.absolute ==> MakeAbsolute(p, base) == p
    ensures !p.absolute ==> MakeAbsolute(p, base) == Resolve(MakeDirectory(base), p).(version := p.version)
  {
  }
}

/** Recursive directory creation: a scan over the path string that asks for every prefix before a slash. */
module Directories {
  /** A resolved path: empty and `.` steps disappear, so `./log//a/` and `log/a` are the same. */
  datatype Path = Path(absolute: bool, names: seq<string>)

  /** The directory a step leads into, if it leads anywhere. */
  function Step(name: string): seq<string> { if name == "" || name == "." then [] else [name] }

  /** The steps completed by a slash, and what follows the last slash. */
  function Parts(p: string): (seq<string>, string) {
    if p == "" then ([], "")
    else
      var before := Parts(p[..|p| - 1]);
      if p[|p| - 1] == '/' then (before.0 + Step(before.1), "")
      else (before.0, before.1 + [p[|p| - 1]])
  }

  function Names(p: string): seq<string> { Parts(p).0 + Step(Parts(p).1) }

  function Resolve(p: string): Path { Path(p != "" && p[0] == '/', Names(p)) }

  function Prefix(p: Path, n: nat): Path
    requires n <= |p.names|
  {
    Path(p.absolute, p.names[..n])
  }

  function Parent(p: Path): Path
    requires p.names != []
  {
    Prefix(p, |p.names| - 1)
  }

  /** The root and the current directory are always there. */
  predicate Present(dirs: set<Path>, p: Path) { p.names == [] || p in dirs }

  /** Every directory is inside one that exists. */
  ghost predicate Closed(dirs: set<Path>) { forall p :: p in dirs && p.names != [] ==> Present(dirs, Parent(p)) }

  datatype Errno = ENOENT | EEXIST | EACCES

  // ---- What it does ---------------------------------------------------------------------------

  /** Level by level: create what is missing, stop where the system refuses. */
  function MakeAll(dirs: set<Path>, denied: set<Path>, p: Path): (bool, set<Path>)
    decreases |p.names|
  {
    if p.names == [] then (true, dirs)
    else
      var above := MakeAll(dirs, denied, Parent(p));
      if !above.0 || p in above.1 then above
      else if p in denied then (false, above.1)
      else (true, above.1 + {p})
  }

  /** The levels behind the scan at `i`. */
  function Done(dir: string, i: nat): Path
    requires i <= |dir|
  {
    Path(dir != "" && dir[0] == '/', Parts(dir[..i]).0)
  }

  lemma NothingDone(dirs: set<Path>, denied: set<Path>, dir: string)
    ensures MakeAll(dirs, denied, Done(dir, 0)) == (true, dirs)
  {}

  /** A slash completes a step, which may lead nowhere. */
  lemma DoneStep(dir: string, i: nat)
    requires i < |dir|
    ensures dir[i] != '/' ==> Done(dir, i + 1) == Done(dir, i)
    ensures dir[i] == '/' ==> Done(dir, i + 1).names == Names(dir[..i])
    ensures dir[i] == '/' && i > 0 ==> Done(dir, i + 1) == Resolve(dir[..i])
    ensures dir[i] == '/' ==> Done(dir, i + 1).names == Done(dir, i).names + Step(Parts(dir[..i]).1)
    ensures i == 0 ==> Done(dir, i + 1).names == []
  {
    assert dir[..i + 1][..i] == dir[..i] && dir[..i + 1][i] == dir[i];
  }

  lemma MakesPresent(dirs: set<Path>, denied: set<Path>, p: Path)
    requires MakeAll(dirs, denied, p).0
    ensures Present(MakeAll(dirs, denied, p).1, p)
  {}

  lemma {:induction false} OneMoreName(dirs: set<Path>, denied: set<Path>, above: Path, p: Path, name: string,
                                       now: set<Path>)
    requires p.names == above.names + Step(name) && above.absolute == p.absolute
    requires MakeAll(dirs, denied, above) == (true, now)
    ensures MakeAll(dirs, denied, p) == (if Present(now, p) then (true, now)
                                         else if p in denied then (false, now) else (true, now + {p}))
    ensures !Present(now, p) ==> Present(now, Parent(p))
  {
    MakesPresent(dirs, denied, above);
    if Step(name) == [] {
      assert p == above;
    } else {
      assert Parent(p) == above;
    }
  }

  lemma OneMoreLevel(dirs: set<Path>, denied: set<Path>, dir: string, i: nat, now: set<Path>)
    requires i < |dir| && MakeAll(dirs, denied, Done(dir, i)) == (true, now)
    ensures dir[i] != '/' || i == 0 ==> MakeAll(dirs, denied, Done(dir, i + 1)) == (true, now)
    ensures dir[i] == '/' && i > 0 ==>
              var p := Resolve(dir[..i]);
              && Done(dir, i + 1) == p && (!Present(now, p) ==> Present(now, Parent(p)))
              && MakeAll(dirs, denied, p) == (if Present(now, p) then (true, now)
                                              else if p in denied then (false, now) else (true, now + {p}))
  {
    DoneStep(dir, i);
    if dir[i] == '/' {
      if i == 0 {
        NothingDone(dirs, denied, dir);
      } else {
        var name := Parts(dir[..i]).1;
        hide Parts, Resolve, Names;
        OneMoreName(dirs, denied, Done(dir, i), Resolve(dir[..i]), name, now);
      }
    }
  }

  /** What the scan has behind it is above what it will have. */
  lemma {:induction false} DoneGrows(dir: string, i: nat, j: nat)
    requires i <= j <= |dir|
    ensures Done(dir, i).names <= Done(dir, j).names
    decreases j - i
  {
    if i < j {
      DoneGrows(dir, i, j - 1);
      DoneStep(dir, j - 1);
      hide Done;
    }
  }

  lemma {:induction false} RefusalIsFinal(dirs: set<Path>, denied: set<Path>, p: Path, n: nat)
    requires n <= |p.names| && !MakeAll(dirs, denied, Prefix(p, n)).0
    ensures MakeAll(dirs, denied, p) == MakeAll(dirs, denied, Prefix(p, n))
    decreases |p.names|
  {
    if n == |p.names| {
      assert Prefix(p, n) == p;
    } else {
      assert Prefix(Parent(p), n) == Prefix(p, n);
      RefusalIsFinal(dirs, denied, Parent(p), n);
    }
  }

  /** A trailing slash changes nothing, and with it the whole path is scanned. */
  lemma TrailingSlash(path: string, dir: string)
    requires path != "" && dir == (if path[|path| - 1] != '/' then path + "/" else path)
    ensures Done(dir, |dir|) == Resolve(path)
  {
    assert dir[..|dir|] == dir;
    if path[|path| - 1] != '/' {
      assert dir[..|dir| - 1] == path;
    } else {
      assert Step("") == [];
    }
  }

  lemma StopsHere(dirs: set<Path>, denied: set<Path>, dir: string, i: nat)
    requires i < |dir| && !MakeAll(dirs, denied, Done(dir, i + 1)).0
    ensures MakeAll(dirs, denied, Done(dir, |dir|)) == MakeAll(dirs, denied, Done(dir, i + 1))
  {
    DoneGrows(dir, i + 1, |dir|);
    var n := |Done(dir, i + 1).names|;
    assert Prefix(Done(dir, |dir|), n) == Done(dir, i + 1);
    RefusalIsFinal(dirs, denied, Done(dir, |dir|), n);
  }

  // ---- What that means ------------------------------------------------------------------------

  /** The first `m` levels of the path. */
  ghost function Prefixes(p: Path, m: nat): set<Path>
    requires m <= |p.names|
  {
    set n | 0 < n <= m :: Prefix(p, n)
  }

  /** The directory is missing and the system will not have it. */
  predicate Refused(dirs: set<Path>, denied: set<Path>, p: Path) { p !in dirs && p in denied }

  /** How many levels there are above the first refused one. */
  function Depth(dirs: set<Path>, denied: set<Path>, p: Path): (d: nat)
    ensures d <= |p.names|
    decreases |p.names|
  {
    if p.names == [] then 0
    else
      var d := Depth(dirs, denied, Parent(p));
      if d < |p.names| - 1 || Refused(dirs, denied, p) then d else |p.names|
  }

  lemma PrefixOfParent(p: Path, n: nat)
    requires n < |p.names|
    ensures Prefix(Parent(p), n) == Prefix(p, n)
  {
    assert p.names[..|p.names| - 1][..n] == p.names[..n];
  }

  lemma {:induction false} DepthExact(dirs: set<Path>, denied: set<Path>, p: Path, n: nat)
    requires 0 < n <= |p.names|
    ensures n <= Depth(dirs, denied, p) ==> !Refused(dirs, denied, Prefix(p, n))
    ensures n == Depth(dirs, denied, p) + 1 ==> Refused(dirs, denied, Prefix(p, n))
    decreases |p.names|
  {
    if n == |p.names| {
      assert Prefix(p, n) == p;
    } else {
      PrefixOfParent(p, n);
      DepthExact(dirs, denied, Parent(p), n);
    }
  }

  lemma PrefixesOfParent(p: Path, m: nat)
    requires m < |p.names|
    ensures Prefixes(Parent(p), m) == Prefixes(p, m)
  {
    forall n | 0 <= n <= m
      ensures Prefix(Parent(p), n) == Prefix(p, n)
    {
      PrefixOfParent(p, n);
    }
    assert forall n :: 0 < n <= m ==> Prefix(p, n) in Prefixes(p, m) && Prefix(p, n) in Prefixes(Parent(p), m);
  }

  lemma AllPrefixes(p: Path)
    requires p.names != []
    ensures Prefixes(p, |p.names|) == Prefixes(p, |p.names| - 1) + {p}
    ensures p !in Prefixes(p, |p.names| - 1)
  {
    var top := |p.names|;
    assert Prefix(p, top) == p;
    assert forall q :: q in Prefixes(p, top - 1) ==> |q.names| < top;
    assert forall n :: 0 < n <= top ==> Prefix(p, n) in Prefixes(p, top);
    assert forall n :: 0 < n < top ==> Prefix(p, n) in Prefixes(p, top - 1);
  }

  lemma {:induction false} MakesDepth(dirs: set<Path>, denied: set<Path>, p: Path)
    ensures MakeAll(dirs, denied, p)
            == (Depth(dirs, denied, p) == |p.names|, dirs + Prefixes(p, Depth(dirs, denied, p)))
    decreases |p.names|
  {
    if p.names == [] {
      assert dirs + Prefixes(p, 0) == dirs;
    } else {
      MakesDepth(dirs, denied, Parent(p));
      PrefixesOfParent(p, Depth(dirs, denied, Parent(p)));
      AllPrefixes(p);
      hide Prefixes;
      var above := dirs + Prefixes(p, |p.names| - 1);
      assert dirs + Prefixes(p, |p.names|) == above + {p};
      assert p in dirs ==> above + {p} == above;
    }
  }

  /** It succeeds exactly when no missing level is refused, and then every level is there and nothing else
      is new; otherwise exactly the levels above the first refused one are there. */
  lemma MakeAllExact(dirs: set<Path>, denied: set<Path>, p: Path)
    ensures MakeAll(dirs, denied, p).0 <==> forall n :: 0 < n <= |p.names| ==> !Refused(dirs, denied, Prefix(p, n))
    ensures MakeAll(dirs, denied, p).0 ==> MakeAll(dirs, denied, p).1 == dirs + Prefixes(p, |p.names|)
    ensures forall m :: 0 < m <= |p.names| && Refused(dirs, denied, Prefix(p, m))
                        && (forall n :: 0 < n < m ==> !Refused(dirs, denied, Prefix(p, n))) ==>
              MakeAll(dirs, denied, p).1 == dirs + Prefixes(p, m - 1)
  {
    MakesDepth(dirs, denied, p);
    var d := Depth(dirs, denied, p);
    forall n | 0 < n <= |p.names|
      ensures n <= d ==> !Refused(dirs, denied, Prefix(p, n))
      ensures n == d + 1 ==> Refused(dirs, denied, Prefix(p, n))
    {
      DepthExact(dirs, denied, p, n);
    }
    hide MakeAll, Depth, Prefixes;
    assert d < |p.names| ==> Refused(dirs, denied, Prefix(p, d + 1));
  }

  lemma MakesParent(dirs: set<Path>, denied: set<Path>, p: Path)
    requires p.names != [] && MakeAll(dirs, denied, Parent(p)).0
    ensures Present(MakeAll(dirs, denied, Parent(p)).1, Parent(p))
  {}

  lemma {:induction false} StaysClosed(dirs: set<Path>, denied: set<Path>, p: Path)
    requires Closed(dirs)
    ensures Closed(MakeAll(dirs, denied, p).1)
    decreases |p.names|
  {
    if p.names != [] {
      StaysClosed(dirs, denied, Parent(p));
      if MakeAll(dirs, denied, Parent(p)).0 { MakesParent(dirs, denied, p); }
    }
  }

  /** Where the directory exists already there is nothing to do. */
  lemma {:induction false} NothingToMake(dirs: set<Path>, denied: set<Path>, p: Path)
    requires Closed(dirs) && Present(dirs, p)
    ensures MakeAll(dirs, denied, p) == (true, dirs)
    decreases |p.names|
  {
    if p.names != [] { NothingToMake(dirs, denied, Parent(p)); }
  }

  // ---- What a path names ----------------------------------------------------------------------

  lemma {:induction false} PartsOfPlain(s: string)
    requires '/' !in s
    ensures Parts(s) == ([], s)
  {
    if s != "" {
      PartsOfPlain(s[..|s| - 1]);
      assert s == s[..|s| - 1] + [s[|s| - 1]];
    }
  }

  lemma {:induction false} PartsOfJoined(a: string, b: string)
    ensures Parts(a + "/" + b) == (Names(a) + Parts(b).0, Parts(b).1)
  {
    var s := a + "/" + b;
    if b == "" {
      assert s[..|s| - 1] == a;
      assert Names(a) + [] == Names(a);
    } else {
      var n := |b| - 1;
      assert s[..|s| - 1] == a + "/" + b[..n] && s[|s| - 1] == b[n];
      PartsOfJoined(a, b[..n]);
      var before := Parts(b[..n]);
      assert Names(a) + before.0 + Step(before.1) == Names(a) + (before.0 + Step(before.1));
    }
  }

  /** A path names the directories between its slashes, from left to right: what has no slash names itself, unless
      it is empty or `.`, and a slash puts one path after the other.  It is absolute when it begins with one. */
  lemma {:induction false} PathsResolve(a: string, b: string)
    ensures Names(a + "/" + b) == Names(a) + Names(b)
    ensures '/' !in a ==> Names(a) == if a == "" || a == "." then [] else [a]
    ensures Resolve(a).names == Names(a) && (Resolve(a).absolute <==> "/" <= a)
  {
    PartsOfJoined(a, b);
    if '/' !in a { PartsOfPlain(a); }
    hide Parts;
  }

  class FileSystem {
    var dirs: set<Path>
    var errno: Errno
    /** Where the system refuses to create a directory for reasons of its own. */
    const denied: set<Path>

    constructor (dirs: set<Path>, denied: set<Path>)
      ensures this.dirs == dirs && this.denied == denied
    {
      this.dirs, this.denied, errno := dirs, denied, ENOENT;
    }

    method Access(path: string) returns (ok: bool)
      ensures ok <==> Present(dirs, Resolve(path))
    {
      return Present(dirs, Resolve(path));
    }

    /** The system call: one level, inside an existing directory. */
    method MakeDirectory(path: string) returns (ok: bool)
      modifies this
      ensures var p := Resolve(path);
              ok <==> !Present(old(dirs), p) && Present(old(dirs), Parent(p)) && p !in denied
      ensures dirs == if ok then old(dirs) + {Resolve(path)} else old(dirs)
      ensures !ok ==> errno == if Present(old(dirs), Resolve(path)) then EEXIST
                               else if !Present(old(dirs), Parent(Resolve(path))) then ENOENT else EACCES
    {
      var p := Resolve(path);
      if Present(dirs, p) {
        errno := EEXIST;
        return false;
      }
      if !Present(dirs, Parent(p)) {
        errno := ENOENT;
        return false;
      }
      if p in denied {
        errno := EACCES;
        return false;
      }
      dirs := dirs + {p};
      return true;
    }

    /** `mkdir`: create a directory and everything above it.  On failure the system has refused, and not
        because a parent was missing or the directory was already there: no such call is made. */
    method MakeDirectories(path: string) returns (ok: bool)
      requires path != "" && Closed(dirs)
      modifies this
      ensures (ok, dirs) == MakeAll(old(dirs), denied, Resolve(path))
      ensures Closed(dirs) && (!ok ==> errno == EACCES)
    {
      hide Names, Resolve, Done, MakeAll, Closed;
      StaysClosed(dirs, denied, Resolve(path));
      var there := Access(path);
      if there {
        NothingToMake(dirs, denied, Resolve(path));
        return true;
      }
      var dir := path;
      if dir[|dir| - 1] != '/' {
        dir := dir + "/";
      }
      TrailingSlash(path, dir);
      NothingDone(dirs, denied, dir);
      for i := 0 to |dir|
        invariant MakeAll(old(dirs), denied, Done(dir, i)) == (true, dirs)
      {
        OneMoreLevel(old(dirs), denied, dir, i, dirs);
        if dir[i] == '/' && i != 0 {
          var subDir := dir[..i];
          there := Access(subDir);
          if !there {
            ok := MakeDirectory(subDir);
            if !ok {
              StopsHere(old(dirs), denied, dir, i);
              return false;
            }
          }
        }
      }
      return true;
    }
  }
}

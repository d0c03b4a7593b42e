/** Resolution of plugin paths: canonicalising as much of a path as exists, and keeping the
    result inside the package. */
module Paths {
  import opened Text

  // ----- paths as component sequences -----

  datatype Comp = RootDir | CurDir | ParentDir | Normal(name: string)

  type Path = seq<Comp>

  /** A root or a leading dot stands first or not at all. */
  predicate WellFormed(p: Path) {
    forall i :: 1 <= i < |p| ==> !p[i].RootDir? && !p[i].CurDir?
  }

  predicate IsAbsolute(p: Path) { p != [] && p[0].RootDir? }

  function Parent(p: Path): Option<Path> {
    if p == [] || p[|p| - 1].RootDir? then None else Some(p[..|p| - 1])
  }

  function FileName(p: Path): Option<Comp> {
    if p != [] && p[|p| - 1].Normal? then Some(p[|p| - 1]) else None
  }

  function Join(a: Path, b: Path): Path {
    if IsAbsolute(b) then b
    else if a != [] && b != [] && b[0].CurDir? then a + b[1..]
    else a + b
  }

  predicate StartsWithPath(p: Path, prefix: Path) { prefix <= p }

  // ----- the file system -----

  /** Canonicalisation of an existing path: symbolic links and `..` resolved. */
  type FileSystem = Path -> Option<Path>

  /** A root, then names only. */
  predicate Canonical(p: Path) {
    p != [] && p[0].RootDir? && forall i :: 1 <= i < |p| ==> p[i].Normal?
  }

  /** Results are canonical and stay put; the empty path names nothing. */
  ghost predicate Lawful(fs: FileSystem) {
    && fs([]).None?
    && (forall p :: fs(p).Some? ==> Canonical(fs(p).value) && fs(fs(p).value) == fs(p))
  }

  // ----- canonicalize_best_effort -----

  /** The ordinary names of a path, in order. */
  function Names(p: Path): Path {
    if p == [] then [] else (if p[0].Normal? then [p[0]] else []) + Names(p[1..])
  }

  /** The longest of the first `n` prefixes that exists. */
  function LongestExisting(fs: FileSystem, p: Path, n: nat): Option<nat>
    requires n <= |p|
  {
    if fs(p[..n]).Some? then Some(n) else if n == 0 then None else LongestExisting(fs, p, n - 1)
  }

  function BestEffort(fs: FileSystem, p: Path): Option<Path> {
    match LongestExisting(fs, p, |p|)
    case None => None
    case Some(k) => if k <= |p| && fs(p[..k]).Some? then Some(fs(p[..k]).value + Names(p[k..])) else None
  }

  lemma {:induction false} LongestExistingIs(fs: FileSystem, p: Path, n: nat, k: nat)
    requires k <= n <= |p| && fs(p[..k]).Some?
    requires forall j :: k < j <= n ==> fs(p[..j]).None?
    ensures LongestExisting(fs, p, n) == Some(k)
    decreases n - k
  {
    if k < n {
      LongestExistingIs(fs, p, n - 1, k);
    }
  }

  lemma {:induction false} NothingExists(fs: FileSystem, p: Path, n: nat)
    requires n <= |p| && forall j :: 0 <= j <= n ==> fs(p[..j]).None?
    ensures LongestExisting(fs, p, n) == None
  {
    if n > 0 {
      NothingExists(fs, p, n - 1);
    }
  }

  /** Terminates on every path, and finds the longest prefix that exists. */
  method CanonicalizeBestEffort(fs: FileSystem, p: Path) returns (r: Option<Path>)
    requires WellFormed(p) && fs([]).None?
    ensures r == BestEffort(fs, p)
  {
    assert p[..|p|] == p;
    if fs(p).Some? {
      LongestExistingIs(fs, p, |p|, |p|);
      assert Names(p[|p|..]) == [] && fs(p).value + [] == fs(p).value;
      return fs(p);
    }
    var cur := p;
    var tail: Path := [];
    while Parent(cur).Some?
      invariant cur == p[..|cur|] && |cur| <= |p|
      invariant tail == Names(p[|cur|..])
      invariant forall k :: |cur| <= k <= |p| ==> fs(p[..k]).None?
      decreases |cur|
    {
      var parent := Parent(cur).value;
      var rest := p[|parent|..];
      assert rest[0] == cur[|cur| - 1] && rest[1..] == p[|cur|..];
      if FileName(cur).Some? {
        tail := [FileName(cur).value] + tail;
      }
      assert tail == Names(rest);
      assert parent == p[..|parent|];
      if fs(parent).Some? {
        LongestExistingIs(fs, p, |p|, |parent|);
        return Some(fs(parent).value + tail);
      }
      cur := parent;
      if cur == [] {
        break;
      }
    }
    assert |cur| <= 1;
    assert p[..0] == [];
    NothingExists(fs, p, |p|);
    r := fs(p);
  }

  /** `k` is the longest prefix of `p` that exists. */
  ghost predicate Deepest(fs: FileSystem, p: Path, k: nat) {
    k <= |p| && fs(p[..k]).Some? && forall j :: k < j <= |p| ==> fs(p[..j]).None?
  }

  /** `at` lists, in order, the places behind the first `k` components that hold a name. */
  ghost predicate NamePlaces(p: Path, k: nat, at: seq<nat>) {
    && (forall i :: 0 <= i < |at| ==> k <= at[i] < |p| && p[at[i]].Normal?)
    && (forall i, j :: 0 <= i < j < |at| ==> at[i] < at[j])
    && (forall n :: k <= n < |p| && p[n].Normal? ==> n in at)
  }

  /** The components of `p` at the places listed. */
  function At(p: Path, at: seq<nat>): Path
    requires forall i :: 0 <= i < |at| ==> at[i] < |p|
  {
    seq(|at|, i requires 0 <= i < |at| => p[at[i]])
  }

  lemma {:induction false} NamesArePlaced(p: Path, k: nat) returns (at: seq<nat>)
    requires k <= |p|
    ensures NamePlaces(p, k, at) && Names(p[k..]) == At(p, at)
    decreases |p| - k
  {
    if k == |p| {
      at := [];
    } else {
      var rest := NamesArePlaced(p, k + 1);
      assert p[k..][1..] == p[k + 1..] && p[k..][0] == p[k];
      if p[k].Normal? {
        at := [k] + rest;
        PlacedFirst(p, k, rest);
      } else {
        at := rest;
        assert [] + Names(p[k + 1..]) == Names(p[k + 1..]);
      }
    }
  }

  lemma {:induction false} PlacedFirst(p: Path, k: nat, rest: seq<nat>)
    requires k < |p| && p[k].Normal? && NamePlaces(p, k + 1, rest)
    ensures NamePlaces(p, k, [k] + rest) && At(p, [k] + rest) == [p[k]] + At(p, rest)
  {
    var at := [k] + rest;
    assert at[0] == k && forall i :: 0 < i < |at| ==> at[i] == rest[i - 1];
  }

  /** What the walk returns: the longest prefix that exists, in canonical form, then the
      ordinary names behind it, each once and in the order they were written. */
  lemma {:induction false} BestEffortIsCanonicalAncestor(fs: FileSystem, p: Path) returns (k: nat, at: seq<nat>)
    requires Lawful(fs) && BestEffort(fs, p).Some?
    ensures Deepest(fs, p, k) && fs(fs(p[..k]).value) == fs(p[..k])
    ensures BestEffort(fs, p).value == fs(p[..k]).value + Names(p[k..])
    ensures NamePlaces(p, k, at) && BestEffort(fs, p).value == fs(p[..k]).value + At(p, at)
    ensures Canonical(BestEffort(fs, p).value)
  {
    LongestIsLongest(fs, p, |p|);
    k := LongestExisting(fs, p, |p|).value;
    NamesAreOrdinary(p[k..]);
    at := NamesArePlaced(p, k);
  }

  lemma {:induction false} NamesOfNames(p: Path)
    requires forall i :: 0 <= i < |p| ==> p[i].Normal?
    ensures Names(p) == p
  {
    if p != [] {
      NamesOfNames(p[1..]);
    }
  }

  /** Names behind a path that exists are all kept as they stand. */
  lemma {:induction false} MissingNamesAreKept(fs: FileSystem, dir: Path, tail: Path)
    requires fs(dir).Some? && forall i :: 0 <= i < |tail| ==> tail[i].Normal?
    requires forall j :: 0 < j <= |tail| ==> fs(dir + tail[..j]).None?
    ensures BestEffort(fs, dir + tail) == Some(fs(dir).value + tail)
  {
    var p := dir + tail;
    assert p[..|dir|] == dir && p[|dir|..] == tail;
    forall j | |dir| < j <= |p| ensures fs(p[..j]).None? {
      assert p[..j] == dir + tail[..j - |dir|];
    }
    LongestExistingIs(fs, p, |p|, |dir|);
    NamesOfNames(tail);
  }

  /** And it returns nothing only when no prefix exists. */
  lemma {:induction false} BestEffortFailsExactly(fs: FileSystem, p: Path)
    ensures BestEffort(fs, p).None? <==> forall j :: 0 <= j <= |p| ==> fs(p[..j]).None?
  {
    LongestIsLongest(fs, p, |p|);
  }

  lemma {:induction false} LongestIsLongest(fs: FileSystem, p: Path, n: nat)
    requires n <= |p|
    ensures match LongestExisting(fs, p, n)
      case None => forall j :: 0 <= j <= n ==> fs(p[..j]).None?
      case Some(k) => k <= n && fs(p[..k]).Some? && forall j :: k < j <= n ==> fs(p[..j]).None?
  {
    if fs(p[..n]).None? && n > 0 {
      LongestIsLongest(fs, p, n - 1);
    }
  }

  lemma {:induction false} NamesAreOrdinary(p: Path)
    ensures forall i :: 0 <= i < |Names(p)| ==> Names(p)[i].Normal?
  {
    if p != [] {
      NamesAreOrdinary(p[1..]);
    }
  }

  /** One missing name behind a directory that exists is taken as it stands. */
  lemma {:induction false} BestEffortOfMissing(fs: FileSystem, dir: Path, name: string)
    requires fs(dir).Some? && fs(dir + [Normal(name)]).None?
    ensures BestEffort(fs, dir + [Normal(name)]) == Some(fs(dir).value + [Normal(name)])
  {
    assert [Normal(name)][..1] == [Normal(name)];
    MissingNamesAreKept(fs, dir, [Normal(name)]);
  }

  // ----- resolve_in_package -----

  /** The part of the top render frame that path resolution reads. */
  datatype Scope = Scope(package: Path, allowedRoots: seq<Path>, strict: bool)

  datatype PathError = NoRenderScope | AbsoluteDisallowed | StrictRequiresTypedImport | Escape | Io

  method ResolveInPackage(fs: FileSystem, top: Option<Scope>, path: Path) returns (r: Result<Path, PathError>)
    requires fs([]).None? && WellFormed(path)
    requires top.Some? ==> WellFormed(top.value.package)
    ensures r == Resolved(fs, top, path)
  {
    if top.None? || Parent(top.value.package).None? {
      return Err(NoRenderScope);
    }
    var packageDir := Parent(top.value.package).value;
    if IsAbsolute(path) {
      var canon := CanonicalizeBestEffort(fs, path);
      if canon.None? {
        return Err(Io);
      }
      var i := 0;
      while i < |top.value.allowedRoots|
        invariant i <= |top.value.allowedRoots|
        invariant forall j :: 0 <= j < i ==> !StartsWithPath(canon.value, top.value.allowedRoots[j])
      {
        if StartsWithPath(canon.value, top.value.allowedRoots[i]) {
          return Ok(canon.value);
        }
        i := i + 1;
      }
      return Err(AbsoluteDisallowed);
    }
    if top.value.strict {
      return Err(StrictRequiresTypedImport);
    }
    var pkgCanon := fs(packageDir);
    if pkgCanon.None? {
      return Err(Io);
    }
    var joined := Join(packageDir, path);
    var resolved := CanonicalizeBestEffort(fs, joined);
    if resolved.None? {
      return Err(Io);
    }
    if !StartsWithPath(resolved.value, pkgCanon.value) {
      return Err(Escape);
    }
    r := Ok(resolved.value);
  }

  predicate UnderSome(p: Path, roots: seq<Path>) {
    exists i :: 0 <= i < |roots| && StartsWithPath(p, roots[i])
  }

  function Resolved(fs: FileSystem, top: Option<Scope>, path: Path): Result<Path, PathError> {
    if top.None? || Parent(top.value.package).None? then Err(NoRenderScope)
    else
      var dir := Parent(top.value.package).value;
      var found := BestEffort(fs, if IsAbsolute(path) then path else Join(dir, path));
      if IsAbsolute(path) then
        if found.None? then Err(Io)
        else if UnderSome(found.value, top.value.allowedRoots) then Ok(found.value)
        else Err(AbsoluteDisallowed)
      else if top.value.strict then Err(StrictRequiresTypedImport)
      else if fs(dir).None? || found.None? then Err(Io)
      else if StartsWithPath(found.value, fs(dir).value) then Ok(found.value)
      else Err(Escape)
  }

  /** A relative path is taken from the package's directory, without the dot it may start with. */
  lemma {:induction false} RelativeIsJoined(dir: Path, path: Path)
    requires !IsAbsolute(path)
    ensures path == [] || !path[0].CurDir? || dir == [] ==> Join(dir, path) == dir + path
    ensures dir != [] ==> Join(dir, [CurDir] + path) == dir + path
  {
    assert ([CurDir] + path)[1..] == path;
  }

  /** A relative path to files that do not exist yet: with `shown` the part of it that exists,
      all its further names are kept, and only where that part lies decides. */
  lemma {:induction false} NewFilesKeepTheirNames(fs: FileSystem, top: Scope, dir: Path, shown: Path, tail: Path)
    requires top.package != [] && !top.package[|top.package| - 1].RootDir? && dir == top.package[..|top.package| - 1]
    requires !top.strict && fs(dir).Some? && fs(dir + shown).Some?
    requires !IsAbsolute(shown + tail) && (shown != [] ==> !shown[0].CurDir?)
    requires forall i :: 0 <= i < |tail| ==> tail[i].Normal?
    requires forall j :: 0 < j <= |tail| ==> fs(dir + shown + tail[..j]).None?
    ensures Resolved(fs, Some(top), shown + tail) ==
      if fs(dir).value <= fs(dir + shown).value + tail then Ok(fs(dir + shown).value + tail) else Err(Escape)
  {
    var path := shown + tail;
    assert path == [] || !path[0].CurDir?;
    assert dir + path == dir + shown + tail;
    MissingNamesAreKept(fs, dir + shown, tail);
    FoundDecides(fs, top, dir, path, fs(dir + shown).value + tail);
  }

  lemma {:induction false} FoundDecides(fs: FileSystem, top: Scope, dir: Path, path: Path, found: Path)
    requires top.package != [] && !top.package[|top.package| - 1].RootDir? && dir == top.package[..|top.package| - 1]
    requires !top.strict && fs(dir).Some? && !IsAbsolute(path) && (path == [] || !path[0].CurDir?)
    requires BestEffort(fs, dir + path) == Some(found)
    ensures Resolved(fs, Some(top), path) == if fs(dir).value <= found then Ok(found) else Err(Escape)
  {
    RelativeIsJoined(dir, path);
  }

  predicate NoRootAbove(roots: seq<Path>, p: Path) { forall root :: root in roots ==> !(root <= p) }

  /** Why a path is refused, the first reason first: no package to resolve in; for an absolute path
      nothing that exists on it, or no root above it; for a relative one the strict mode, a package
      directory that does not exist, or where it leads. */
  lemma {:induction false} RefusedBecause(fs: FileSystem, top: Option<Scope>, path: Path)
    ensures top.None? || top.value.package == [] || top.value.package[|top.value.package| - 1].RootDir? <==>
            Resolved(fs, top, path) == Err(NoRenderScope)
    ensures top.Some? && top.value.package != [] && !top.value.package[|top.value.package| - 1].RootDir? ==>
      var dir := top.value.package[..|top.value.package| - 1];
      if IsAbsolute(path) then
        && (BestEffort(fs, path).None? <==> Resolved(fs, top, path) == Err(Io))
        && (BestEffort(fs, path).Some? && NoRootAbove(top.value.allowedRoots, BestEffort(fs, path).value) <==>
            Resolved(fs, top, path) == Err(AbsoluteDisallowed))
      else
        && (top.value.strict <==> Resolved(fs, top, path) == Err(StrictRequiresTypedImport))
        && (!top.value.strict ==>
              (fs(dir).None? || BestEffort(fs, Join(dir, path)).None? <==> Resolved(fs, top, path) == Err(Io)))
  {
    if top.Some? && BestEffort(fs, path).Some? {
      var r, roots := BestEffort(fs, path).value, top.value.allowedRoots;
      assert forall i :: 0 <= i < |roots| ==> roots[i] in roots;
      assert UnderSome(r, roots) <==> exists root :: root in roots && root <= r;
    }
  }

  // ----- what an accepted path means -----

  /** Where following a path from the root leads: names descend, `..` climbs. */
  function Location(p: Path): seq<string> {
    if p == [] then []
    else
      var before := Location(p[..|p| - 1]);
      match p[|p| - 1]
      case RootDir => []
      case CurDir => before
      case ParentDir => if before == [] then [] else before[..|before| - 1]
      case Normal(name) => before + [name]
  }

  /** The walk along `p`, once it has passed `dir`, never leaves it again. */
  predicate StaysBelow(p: Path, dir: Path) {
    |dir| <= |p| && forall k :: |dir| <= k <= |p| ==> Location(dir) <= Location(p[..k])
  }

  lemma {:induction false} LocationOfCanonical(p: Path)
    requires Canonical(p)
    ensures |Location(p)| == |p| - 1 && forall i :: 1 <= i < |p| ==> Location(p)[i - 1] == p[i].name
  {
    if |p| > 1 {
      LocationOfCanonical(p[..|p| - 1]);
    }
  }

  /** On canonical paths the prefix test decides containment, both ways. */
  lemma {:induction false} PrefixMeansContainment(p: Path, dir: Path)
    requires Canonical(p) && Canonical(dir)
    ensures StartsWithPath(p, dir) <==> Location(dir) <= Location(p)
    ensures StartsWithPath(p, dir) ==> StaysBelow(p, dir)
  {
    LocationOfCanonical(p);
    LocationOfCanonical(dir);
    if Location(dir) <= Location(p) {
      forall i | 0 <= i < |dir| ensures dir[i] == p[i] {
        if i > 0 {
          assert Location(dir)[i - 1] == Location(p)[i - 1];
        }
      }
    }
    if StartsWithPath(p, dir) {
      assert p[..|p|] == p;
      forall k | |dir| <= k <= |p| ensures Location(dir) <= Location(p[..k]) {
        assert Canonical(p[..k]);
        LocationOfCanonical(p[..k]);
        forall i | 0 <= i < |Location(dir)| ensures Location(dir)[i] == Location(p[..k])[i] {
          assert dir[i + 1] == p[i + 1] == p[..k][i + 1];
        }
      }
    }
  }

  /** On a path with `..` the same test would accept an escape. */
  lemma {:induction false} PrefixAloneIsNotContainment(dir: Path, name: string)
    requires Canonical(dir) && |dir| > 1 && dir[|dir| - 1] != Normal(name)
    ensures StartsWithPath(dir + [ParentDir, Normal(name)], dir)
    ensures !(Location(dir) <= Location(dir + [ParentDir, Normal(name)]))
  {
    LocationOfCanonical(dir);
    var up := dir + [ParentDir];
    var p := dir + [ParentDir, Normal(name)];
    assert up[..|up| - 1] == dir && p[..|p| - 1] == up;
    assert Location(up) == Location(dir)[..|dir| - 2];
    assert Location(p) == Location(up) + [name];
    assert Location(dir)[|dir| - 2] == dir[|dir| - 1].name;
  }

  /** An accepted relative path is, by its names, inside the package's directory: it has no
      `..`, and going down its names never leaves that directory. */
  lemma {:induction false} AcceptedRelativeIsInsideByName(fs: FileSystem, top: Option<Scope>, path: Path)
    requires Lawful(fs) && !IsAbsolute(path) && Resolved(fs, top, path).Ok?
    ensures !top.value.strict
    ensures
      var r, dir := Resolved(fs, top, path).value, fs(Parent(top.value.package).value).value;
      && Canonical(r)
      && StaysBelow(r, dir) && Location(dir) <= Location(r)
  {
    var dir := Parent(top.value.package).value;
    var _, _ := BestEffortIsCanonicalAncestor(fs, Join(dir, path));
    PrefixMeansContainment(Resolved(fs, top, path).value, fs(dir).value);
  }

  predicate Reaches(roots: seq<Path>, p: Path) {
    exists i :: 0 <= i < |roots| && Location(roots[i]) <= Location(p)
  }

  /** An absolute path is accepted if and only if what it resolves to lies, by its names,
      under an allowed root, whichever root that is. */
  lemma {:induction false} AbsoluteIsUnderARootByName(fs: FileSystem, top: Option<Scope>, path: Path)
    requires Lawful(fs) && IsAbsolute(path) && top.Some? && Parent(top.value.package).Some?
    requires forall i :: 0 <= i < |top.value.allowedRoots| ==> Canonical(top.value.allowedRoots[i])
    ensures Resolved(fs, top, path).Ok? <==>
      BestEffort(fs, path).Some? && Reaches(top.value.allowedRoots, BestEffort(fs, path).value)
  {
    if BestEffort(fs, path).Some? {
      var p := BestEffort(fs, path).value;
      var _, _ := BestEffortIsCanonicalAncestor(fs, path);
      forall i | 0 <= i < |top.value.allowedRoots|
        ensures StartsWithPath(p, top.value.allowedRoots[i]) <==> Location(top.value.allowedRoots[i]) <= Location(p)
      {
        PrefixMeansContainment(p, top.value.allowedRoots[i]);
      }
    }
  }
}

/** Plugin paths over a file system with links: what canonicalisation follows, and where a
    file written at an accepted path ends up. */
module Links {
  import opened Text
  import opened Paths

  // ----- the file system -----

  /** Names from the root, no link among them. */
  type Loc = seq<string>

  datatype Node = File | Dir | Link(target: Path)

  /** What lies where (the root is always there), and the working directory. */
  datatype World = World(nodes: map<Loc, Node>, cwd: Loc)

  /** How many links the kernel follows for one path. */
  const MAX_LINKS: nat := 40

  function NodeAt(w: World, l: Loc): Option<Node> {
    if l == [] then Some(Dir) else if l in w.nodes then Some(w.nodes[l]) else None
  }

  predicate IsDir(w: World, l: Loc) { NodeAt(w, l) == Some(Dir) }

  predicate Exists(w: World, l: Loc) { NodeAt(w, l).Some? && !NodeAt(w, l).value.Link? }

  predicate NoRoot(p: Path) { forall i :: 0 <= i < |p| ==> !p[i].RootDir? }

  predicate RootedAtMost(p: Path) { p != [] ==> NoRoot(p[1..]) }

  /** Everything lies in a directory, and links have targets. */
  ghost predicate Sound(w: World) {
    && (forall l :: l in w.nodes && l != [] ==> IsDir(w, l[..|l| - 1]))
    && (forall l :: l in w.nodes && w.nodes[l].Link? ==> w.nodes[l].target != [] && RootedAtMost(w.nodes[l].target))
    && IsDir(w, w.cwd)
  }

  function Up(l: Loc): Loc { if l == [] then [] else l[..|l| - 1] }

  /** A place, and how many links may still be followed. */
  datatype At = At(loc: Loc, links: nat)

  /** Following a path from a place: every component must exist. */
  function Walk(w: World, at: Loc, p: Path, links: nat): (r: Option<At>)
    ensures r.Some? ==> r.value.links <= links
    decreases links, |p|
  {
    if p == [] then Some(At(at, links))
    else if p[0].RootDir? then Walk(w, [], p[1..], links)
    else if !IsDir(w, at) then None
    else match p[0]
      case CurDir => Walk(w, at, p[1..], links)
      case ParentDir => Walk(w, Up(at), p[1..], links)
      case Normal(name) =>
        match NodeAt(w, at + [name])
        case None => None
        case Some(Link(target)) => if links == 0 then None else Walk(w, at, target + p[1..], links - 1)
        case Some(_) => Walk(w, at + [name], p[1..], links)
  }

  /** Where opening the path for writing puts the file: all but its last component must exist,
      and a link there is followed to a place that must exist just as far. */
  function Open(w: World, at: Loc, p: Path, links: nat): Option<Loc>
    decreases links, |p|
  {
    if p == [] then Some(at)
    else if |p| > 1 then
      match Walk(w, at, p[..|p| - 1], links)
      case None => None
      case Some(x) => Open(w, x.loc, [p[|p| - 1]], x.links)
    else if p[0].Normal? && IsDir(w, at) then
      match NodeAt(w, at + [p[0].name])
      case Some(Link(target)) => if links == 0 then None else Open(w, at, target, links - 1)
      case _ => Some(at + [p[0].name])
    else match Walk(w, at, p, links) case Some(x) => Some(x.loc) case None => None
  }

  /** Where a file written at the path ends up when the directories missing on the way are made
      first: a link on the way must lead to a directory, one at the end is opened. */
  function Land(w: World, at: Loc, p: Path, links: nat): Option<Loc>
    decreases links, |p|
  {
    if p == [] then Some(at)
    else match p[0]
      case RootDir => Land(w, [], p[1..], links)
      case CurDir => if IsDir(w, at) then Land(w, at, p[1..], links) else None
      case ParentDir => if IsDir(w, at) then Land(w, Up(at), p[1..], links) else None
      case Normal(name) =>
        if NodeAt(w, at).Some? && !IsDir(w, at) then None
        else match NodeAt(w, at + [name])
          case Some(Link(target)) =>
            if links == 0 then None
            else if |p| == 1 then Open(w, at, target, links - 1)
            else (match Walk(w, at, target, links - 1)
                  case None => None
                  case Some(x) => Land(w, x.loc, p[1..], x.links))
          case _ => Land(w, at + [name], p[1..], links)
  }

  function NamesOf(l: Loc): Path { seq(|l|, i requires 0 <= i < |l| => Normal(l[i])) }

  function AsPath(l: Loc): Path { [RootDir] + NamesOf(l) }

  function Canonicalize(w: World, p: Path): Option<Path> {
    if p == [] then None
    else match Walk(w, w.cwd, p, MAX_LINKS) case Some(x) => Some(AsPath(x.loc)) case None => None
  }

  /** The canonicalisation `Paths` speaks of. */
  function Fs(w: World): FileSystem { p => Canonicalize(w, p) }

  // ----- walking -----

  lemma {:induction false} WalkAppend(w: World, at: Loc, a: Path, b: Path, links: nat)
    ensures Walk(w, at, a + b, links) ==
      match Walk(w, at, a, links) case None => None case Some(x) => Walk(w, x.loc, b, x.links)
    decreases links, |a|
  {
    if a == [] {
      assert a + b == b;
    } else {
      assert (a + b)[1..] == a[1..] + b;
      match a[0] {
        case RootDir => WalkAppend(w, [], a[1..], b, links);
        case CurDir => WalkAppend(w, at, a[1..], b, links);
        case ParentDir => WalkAppend(w, Up(at), a[1..], b, links);
        case Normal(name) =>
          match NodeAt(w, at + [name]) {
            case None =>
            case Some(Link(target)) =>
              assert target + (a[1..] + b) == (target + a[1..]) + b;
              if links > 0 {
                WalkAppend(w, at, target + a[1..], b, links - 1);
              }
            case Some(_) => WalkAppend(w, at + [name], a[1..], b, links);
          }
      }
    }
  }

  lemma {:induction false} ParentIsDir(w: World, l: Loc)
    requires Sound(w) && NodeAt(w, l).Some?
    ensures IsDir(w, Up(l))
  {
  }

  /** What a path leads to exists. */
  lemma {:induction false} WalkReachesWhatExists(w: World, at: Loc, p: Path, links: nat)
    requires Sound(w) && Exists(w, at) && Walk(w, at, p, links).Some?
    ensures Exists(w, Walk(w, at, p, links).value.loc)
    decreases links, |p|
  {
    if p != [] {
      match p[0] {
        case RootDir => WalkReachesWhatExists(w, [], p[1..], links);
        case CurDir => WalkReachesWhatExists(w, at, p[1..], links);
        case ParentDir =>
          ParentIsDir(w, at);
          WalkReachesWhatExists(w, Up(at), p[1..], links);
        case Normal(name) =>
          if NodeAt(w, at + [name]).value.Link? {
            WalkReachesWhatExists(w, at, NodeAt(w, at + [name]).value.target + p[1..], links - 1);
          } else {
            WalkReachesWhatExists(w, at + [name], p[1..], links);
          }
      }
    }
  }

  /** Below a place that does not exist names lead on, down from it. */
  lemma {:induction false} LandBelowNothing(w: World, at: Loc, p: Path, links: nat)
    requires Sound(w) && NodeAt(w, at).None? && AllNames(p)
    ensures Land(w, at, p, links).Some? && at <= Land(w, at, p, links).value
    decreases |p|
  {
    if p != [] {
      var next := at + [p[0].name];
      assert next[..|next| - 1] == at;
      LandBelowNothing(w, next, p[1..], links);
    }
  }

  /** Prefixes of an existing place are directories. */
  lemma {:induction false} AncestorsAreDirs(w: World, l: Loc, k: nat)
    requires Sound(w) && NodeAt(w, l).Some? && k < |l|
    ensures IsDir(w, l[..k])
    decreases |l|
  {
    ParentIsDir(w, l);
    if k < |l| - 1 {
      AncestorsAreDirs(w, l[..|l| - 1], k);
      assert l[..|l| - 1][..k] == l[..k];
    }
  }

  /** The names of an existing place lead to it, by no link. */
  lemma {:induction false} WalkByNames(w: World, l: Loc, k: nat, rest: Path, links: nat)
    requires Sound(w) && Exists(w, l) && k <= |l|
    ensures Walk(w, l[..k], NamesOf(l[k..]) + rest, links) == Walk(w, l, rest, links)
    decreases |l| - k
  {
    var p := NamesOf(l[k..]) + rest;
    if k == |l| {
      assert l[..k] == l && p == rest;
    } else {
      NextName(w, l, k, rest);
      WalkByNames(w, l, k + 1, rest, links);
    }
  }

  lemma {:induction false} LandByNames(w: World, l: Loc, k: nat, rest: Path, links: nat)
    requires Sound(w) && Exists(w, l) && k <= |l|
    ensures Land(w, l[..k], NamesOf(l[k..]) + rest, links) == Land(w, l, rest, links)
    decreases |l| - k
  {
    var p := NamesOf(l[k..]) + rest;
    if k == |l| {
      assert l[..k] == l && p == rest;
    } else {
      NextName(w, l, k, rest);
      LandByNames(w, l, k + 1, rest, links);
    }
  }

  lemma {:induction false} NextName(w: World, l: Loc, k: nat, rest: Path)
    requires Sound(w) && Exists(w, l) && k < |l|
    ensures IsDir(w, l[..k]) && Exists(w, l[..k + 1]) && l[..k] + [l[k]] == l[..k + 1]
    ensures
      var p := NamesOf(l[k..]) + rest;
      p != [] && p[0] == Normal(l[k]) && p[1..] == NamesOf(l[k + 1..]) + rest
  {
    FirstName(l[k..], rest);
    assert l[k..][1..] == l[k + 1..];
    PrefixExists(w, l, k);
    PrefixExists(w, l, k + 1);
  }

  lemma {:induction false} FirstName(l: Loc, rest: Path)
    requires l != []
    ensures
      var p := NamesOf(l) + rest;
      p != [] && p[0] == Normal(l[0]) && p[1..] == NamesOf(l[1..]) + rest
  {
  }

  lemma {:induction false} PrefixExists(w: World, l: Loc, k: nat)
    requires Sound(w) && Exists(w, l) && k <= |l|
    ensures Exists(w, l[..k]) && (k < |l| ==> IsDir(w, l[..k]))
    ensures k > 0 ==> l[..k] == l[..k - 1] + [l[k - 1]]
  {
    if k < |l| {
      AncestorsAreDirs(w, l, k);
    } else {
      assert l[..k] == l;
    }
  }

  lemma {:induction false} WalkByPath(w: World, at: Loc, l: Loc, rest: Path, links: nat)
    requires Sound(w) && Exists(w, l)
    ensures Walk(w, at, AsPath(l) + rest, links) == Walk(w, l, rest, links)
  {
    var p := AsPath(l) + rest;
    assert p[0] == RootDir && p[1..] == NamesOf(l) + rest;
    assert l[..0] == [] && l[0..] == l;
    WalkByNames(w, l, 0, rest, links);
  }

  lemma {:induction false} LandByPath(w: World, at: Loc, l: Loc, rest: Path, links: nat)
    requires Sound(w) && Exists(w, l)
    ensures Land(w, at, AsPath(l) + rest, links) == Land(w, l, rest, links)
  {
    var p := AsPath(l) + rest;
    assert p[0] == RootDir && p[1..] == NamesOf(l) + rest;
    assert l[..0] == [] && l[0..] == l;
    LandByNames(w, l, 0, rest, links);
  }

  /** Canonicalising keeps the laws that path resolution rests on. */
  lemma {:induction false} CanonicalizeIsLawful(w: World)
    requires Sound(w)
    ensures Lawful(Fs(w))
  {
    forall p | Fs(w)(p).Some? ensures Canonical(Fs(w)(p).value) && Fs(w)(Fs(w)(p).value) == Fs(w)(p) {
      WalkReachesWhatExists(w, w.cwd, p, MAX_LINKS);
      var l := Walk(w, w.cwd, p, MAX_LINKS).value.loc;
      WalkByPath(w, w.cwd, l, [], MAX_LINKS);
      assert AsPath(l) + [] == AsPath(l);
    }
  }

  // ----- where the existing part of a result ends -----

  predicate AllNames(p: Path) { forall i :: 0 <= i < |p| ==> p[i].Normal? }

  /** `r` goes through what exists as far as `l`, and on by names that do not: the next is
      missing, or a link, or has a file in front of it. */
  predicate Ends(w: World, r: Path, l: Loc, tail: Path) {
    && r == AsPath(l) + tail && AllNames(tail) && Exists(w, l)
    && (tail != [] ==> !IsDir(w, l) || !Exists(w, l + [tail[0].name]))
  }

  /** The walk of `canonicalize_best_effort` ends its canonical part just there. */
  lemma {:induction false} BestEffortEnds(w: World, p: Path) returns (l: Loc, tail: Path)
    requires Sound(w) && WellFormed(p) && BestEffort(Fs(w), p).Some?
    ensures Ends(w, BestEffort(Fs(w), p).value, l, tail)
  {
    CanonicalizeIsLawful(w);
    var k, _ := BestEffortIsCanonicalAncestor(Fs(w), p);
    WalkReachesWhatExists(w, w.cwd, p[..k], MAX_LINKS);
    var x := Walk(w, w.cwd, p[..k], MAX_LINKS).value;
    l, tail := x.loc, Names(p[k..]);
    NamesAreOrdinary(p[k..]);
    if tail != [] && IsDir(w, l) {
      NextIsMissing(w, p, k, x);
    }
  }

  lemma {:induction false} NextIsMissing(w: World, p: Path, k: nat, x: At)
    requires Sound(w) && WellFormed(p) && 0 < k < |p| && Walk(w, w.cwd, p[..k], MAX_LINKS) == Some(x)
    requires Fs(w)(p[..k + 1]).None? && IsDir(w, x.loc) && Names(p[k..]) != []
    ensures Names(p[k..])[0] == p[k] && p[k].Normal? && !Exists(w, x.loc + [p[k].name])
  {
    assert p[..k + 1] == p[..k] + [p[k]];
    WalkAppend(w, w.cwd, p[..k], [p[k]], MAX_LINKS);
    assert Walk(w, x.loc, [p[k]], x.links).None?;
    assert [p[k]][1..] == [];
    assert p[k..][0] == p[k];
  }

  /** A directory whose path is a prefix of the result lies on its existing part. */
  lemma {:induction false} DirIsOnExistingPart(w: World, r: Path, l: Loc, tail: Path, dir: Loc)
    requires Sound(w) && Ends(w, r, l, tail) && Exists(w, dir) && AsPath(dir) <= r
    ensures dir <= l
  {
    forall i | 0 <= i < |dir| && i < |l| ensures dir[i] == l[i] {
      assert AsPath(dir)[i + 1] == r[i + 1] == AsPath(l)[i + 1];
    }
    if |dir| > |l| {
      assert AsPath(dir)[|l| + 1] == r[|l| + 1] == tail[0];
      assert dir[..|l|] == l;
      PrefixExists(w, dir, |l|);
      PrefixExists(w, dir, |l| + 1);
    }
  }

  // ----- where writing there leads -----

  /** A file written at `r` ends up outside `dir`. */
  predicate Escapes(w: World, r: Path, dir: Loc) {
    Land(w, w.cwd, r, MAX_LINKS).Some? && !(dir <= Land(w, w.cwd, r, MAX_LINKS).value)
  }

  /** Where the component behind the existing part is a link: where following it, and what is
      left of the path, leads; nowhere if it is no link. */
  function BehindLink(w: World, l: Loc, tail: Path): Option<Loc>
    requires AllNames(tail)
  {
    if tail == [] || !IsDir(w, l) then None
    else match NodeAt(w, l + [tail[0].name])
      case Some(Link(target)) =>
        if |tail| == 1 then Open(w, l, target, MAX_LINKS - 1)
        else (match Walk(w, l, target, MAX_LINKS - 1)
              case None => None
              case Some(x) => Land(w, x.loc, tail[1..], x.links))
      case _ => None
  }

  predicate LinkLeadsOut(w: World, l: Loc, tail: Path, dir: Loc)
    requires AllNames(tail)
  {
    BehindLink(w, l, tail).Some? && !(dir <= BehindLink(w, l, tail).value)
  }

  /** Writing at an accepted result leaves the directory if and only if the first component
      behind its existing part is a link that leads out of it. */
  lemma {:induction false} WritesEscapeExactly(w: World, r: Path, l: Loc, tail: Path, dir: Loc)
    requires Sound(w) && Ends(w, r, l, tail) && Exists(w, dir) && AsPath(dir) <= r
    ensures Escapes(w, r, dir) <==> LinkLeadsOut(w, l, tail, dir)
  {
    DirIsOnExistingPart(w, r, l, tail, dir);
    LandByPath(w, w.cwd, l, tail, MAX_LINKS);
    if tail == [] || !IsDir(w, l) {
      LandAtEnd(w, l, tail);
    } else if NodeAt(w, l + [tail[0].name]).None? {
      LandOnNew(w, l, tail);
    } else {
      LandOnLink(w, l, tail);
    }
  }

  lemma {:induction false} LandAtEnd(w: World, l: Loc, tail: Path)
    requires Exists(w, l) && AllNames(tail) && (tail == [] || !IsDir(w, l))
    ensures Land(w, l, tail, MAX_LINKS) == if tail == [] then Some(l) else None
  {
  }

  lemma {:induction false} LandOnNew(w: World, l: Loc, tail: Path)
    requires Sound(w) && IsDir(w, l) && AllNames(tail) && tail != [] && NodeAt(w, l + [tail[0].name]).None?
    ensures Land(w, l, tail, MAX_LINKS).Some? && l <= Land(w, l, tail, MAX_LINKS).value
    ensures BehindLink(w, l, tail).None?
  {
    LandBelowNothing(w, l + [tail[0].name], tail[1..], MAX_LINKS);
  }

  lemma {:induction false} LandOnLink(w: World, l: Loc, tail: Path)
    requires IsDir(w, l) && AllNames(tail) && tail != []
    requires NodeAt(w, l + [tail[0].name]).Some? && NodeAt(w, l + [tail[0].name]).value.Link?
    ensures Land(w, l, tail, MAX_LINKS) == BehindLink(w, l, tail)
  {
  }

  /** The next component does not resolve by itself either. */
  predicate Dangling(w: World, l: Loc, tail: Path) {
    tail != [] ==> Walk(w, l, [tail[0]], MAX_LINKS).None?
  }

  /** A link to something that does not exist leads out only as the last component, and then
      where opening its target does. */
  lemma {:induction false} TargetDecides(w: World, r: Path, l: Loc, tail: Path, dir: Loc)
    requires Sound(w) && Ends(w, r, l, tail) && Exists(w, dir) && AsPath(dir) <= r && Dangling(w, l, tail)
    ensures Escapes(w, r, dir) <==> |tail| == 1 && LinkLeadsOut(w, l, tail, dir)
  {
    WritesEscapeExactly(w, r, l, tail, dir);
    if tail == [] {
      assert BehindLink(w, l, tail).None?;
    } else if |tail| > 1 {
      DanglingLeadsNowhere(w, l, tail);
    }
  }

  lemma {:induction false} DanglingLeadsNowhere(w: World, l: Loc, tail: Path)
    requires AllNames(tail) && |tail| > 1 && Dangling(w, l, tail)
    ensures BehindLink(w, l, tail).None?
  {
    if IsDir(w, l) && NodeAt(w, l + [tail[0].name]).Some? && NodeAt(w, l + [tail[0].name]).value.Link? {
      LinkWalk(w, l, tail[0].name, NodeAt(w, l + [tail[0].name]).value, MAX_LINKS);
    }
  }

  lemma {:induction false} LinkWalk(w: World, l: Loc, name: string, node: Node, links: nat)
    requires IsDir(w, l) && NodeAt(w, l + [name]) == Some(node) && node.Link? && links > 0
    ensures Walk(w, l, [Normal(name)], links) == Walk(w, l, node.target, links - 1)
  {
    var p := [Normal(name)];
    assert node.target + p[1..] == node.target;
  }

  // ----- what resolution promises of its results -----

  /** The directory of the package, once canonicalisation has found it. */
  function PackageLoc(w: World, top: Scope): Option<Loc> {
    match Parent(top.package)
    case None => None
    case Some(dir) =>
      if dir == [] then None
      else match Walk(w, w.cwd, dir, MAX_LINKS) case Some(x) => Some(x.loc) case None => None
  }

  /** An accepted relative path: its existing part lies in the package's directory, and
      writing there stays in it if and only if no link behind that part leads out. */
  lemma {:induction false} AcceptedRelativeIsContained(w: World, top: Option<Scope>, path: Path)
      returns (l: Loc, tail: Path)
    requires Sound(w) && WellFormed(path) && !IsAbsolute(path)
    requires top.Some? ==> WellFormed(top.value.package)
    requires Resolved(Fs(w), top, path).Ok?
    ensures PackageLoc(w, top.value).Some? && Ends(w, Resolved(Fs(w), top, path).value, l, tail)
    ensures PackageLoc(w, top.value).value <= l
    ensures Escapes(w, Resolved(Fs(w), top, path).value, PackageLoc(w, top.value).value) <==>
            LinkLeadsOut(w, l, tail, PackageLoc(w, top.value).value)
  {
    var dir := Parent(top.value.package).value;
    WalkReachesWhatExists(w, w.cwd, dir, MAX_LINKS);
    var loc := PackageLoc(w, top.value).value;
    l, tail := BestEffortEnds(w, Join(dir, path));
    DirIsOnExistingPart(w, Resolved(Fs(w), top, path).value, l, tail, loc);
    WritesEscapeExactly(w, Resolved(Fs(w), top, path).value, l, tail, loc);
  }

  /** A link in the package whose target does not exist is accepted as if it were a name,
      and writing through it ends up wherever it points. */
  lemma {:induction false} DanglingLinkIsAccepted(w: World, top: Scope, link: string, target: Path)
    requires Sound(w) && !top.strict && PackageLoc(w, top).Some?
    requires Parent(top.package).Some? && WellFormed(top.package)
    requires NodeAt(w, PackageLoc(w, top).value + [link]) == Some(Link(target)) && IsDir(w, PackageLoc(w, top).value)
    requires Canonicalize(w, Join(Parent(top.package).value, [Normal(link)])).None?
    ensures Resolved(Fs(w), Some(top), [Normal(link)]) == Ok(AsPath(PackageLoc(w, top).value + [link]))
    ensures Land(w, w.cwd, AsPath(PackageLoc(w, top).value + [link]), MAX_LINKS)
         == Open(w, PackageLoc(w, top).value, target, MAX_LINKS - 1)
  {
    var dir, loc := Parent(top.package).value, PackageLoc(w, top).value;
    assert Join(dir, [Normal(link)]) == dir + [Normal(link)];
    BestEffortOfMissing(Fs(w), dir, link);
    assert AsPath(loc) + [Normal(link)] == AsPath(loc + [link]);
    WalkReachesWhatExists(w, w.cwd, dir, MAX_LINKS);
    LandThroughLink(w, loc, link, target);
  }

  lemma {:induction false} LandThroughLink(w: World, loc: Loc, link: string, target: Path)
    requires Sound(w) && IsDir(w, loc) && NodeAt(w, loc + [link]) == Some(Link(target))
    ensures Land(w, w.cwd, AsPath(loc + [link]), MAX_LINKS) == Open(w, loc, target, MAX_LINKS - 1)
  {
    assert AsPath(loc) + [Normal(link)] == AsPath(loc + [link]);
    LandByPath(w, w.cwd, loc, [Normal(link)], MAX_LINKS);
    LandOnLink(w, loc, [Normal(link)]);
  }

  /** Existing targets are judged by where they are, links or not. */
  lemma {:induction false} EscapingLinkIsRefused(w: World, top: Scope, path: Path)
    requires Sound(w) && WellFormed(path) && !IsAbsolute(path) && !top.strict && PackageLoc(w, top).Some?
    requires Canonicalize(w, Join(Parent(top.package).value, path)).Some?
    ensures
      var found := Walk(w, w.cwd, Join(Parent(top.package).value, path), MAX_LINKS).value.loc;
      Resolved(Fs(w), Some(top), path) ==
        if PackageLoc(w, top).value <= found then Ok(AsPath(found)) else Err(Escape)
  {
    var joined := Join(Parent(top.package).value, path);
    var found := Walk(w, w.cwd, joined, MAX_LINKS).value.loc;
    var loc := PackageLoc(w, top).value;
    assert joined[..|joined|] == joined && joined[|joined|..] == [];
    assert AsPath(found) + [] == AsPath(found);
    PrefixOfPaths(loc, found);
  }

  lemma {:induction false} PrefixOfPaths(a: Loc, b: Loc)
    ensures AsPath(a) <= AsPath(b) <==> a <= b
  {
    if AsPath(a) <= AsPath(b) {
      forall i | 0 <= i < |a| ensures a[i] == b[i] { assert AsPath(a)[i + 1] == AsPath(b)[i + 1]; }
    }
  }

  // ----- absolute paths and allowed roots -----

  /** A root is of use to a path only under its canonical name. */
  predicate Grants(w: World, root: Path, r: Path) { Canonicalize(w, root) == Some(root) && root <= r }

  predicate SomeGrants(w: World, roots: seq<Path>, r: Path) {
    exists i :: 0 <= i < |roots| && Grants(w, roots[i], r)
  }

  /** An absolute path is accepted if and only if what it resolves to lies below an allowed
      root that is written canonically: a root named through a link grants nothing. */
  lemma {:induction false} AbsoluteNeedsAnAllowedRoot(w: World, top: Scope, path: Path, l: Loc, tail: Path)
    requires Sound(w) && WellFormed(path) && IsAbsolute(path) && Parent(top.package).Some?
    requires forall i :: 0 <= i < |top.allowedRoots| ==> Canonicalize(w, top.allowedRoots[i]).Some?
    requires BestEffort(Fs(w), path).Some? ==> Ends(w, BestEffort(Fs(w), path).value, l, tail) && Dangling(w, l, tail)
    ensures Resolved(Fs(w), Some(top), path).Ok? <==>
      BestEffort(Fs(w), path).Some? && SomeGrants(w, top.allowedRoots, BestEffort(Fs(w), path).value)
  {
    if BestEffort(Fs(w), path).Some? {
      var r := BestEffort(Fs(w), path).value;
      forall i | 0 <= i < |top.allowedRoots| && top.allowedRoots[i] <= r ensures Grants(w, top.allowedRoots[i], r) {
        ExistingPrefixIsCanonical(w, r, l, tail, top.allowedRoots[i]);
      }
    }
  }

  lemma {:induction false} ExistingPrefixIsCanonical(w: World, r: Path, l: Loc, tail: Path, root: Path)
    requires Sound(w) && Ends(w, r, l, tail) && Dangling(w, l, tail) && root <= r && Canonicalize(w, root).Some?
    ensures Canonicalize(w, root) == Some(root)
  {
    if |root| <= |l| + 1 {
      var dir := l[..|root| - 1];
      assert root == AsPath(dir);
      PrefixExists(w, l, |dir|);
      WalkByPath(w, w.cwd, dir, [], MAX_LINKS);
      assert AsPath(dir) + [] == AsPath(dir);
    } else {
      var n := |root| - |l| - 1;
      assert root == AsPath(l) + tail[..n];
      BeyondTheEndIsNothing(w, l, tail, n);
    }
  }

  lemma {:induction false} BeyondTheEndIsNothing(w: World, l: Loc, tail: Path, n: nat)
    requires Sound(w) && Exists(w, l) && Dangling(w, l, tail) && 0 < n <= |tail|
    ensures Canonicalize(w, AsPath(l) + tail[..n]).None?
  {
    WalkByPath(w, w.cwd, l, tail[..n], MAX_LINKS);
    assert tail[..n] == [tail[0]] + tail[1..n];
    WalkAppend(w, l, [tail[0]], tail[1..n], MAX_LINKS);
  }

  /** When the cache lies behind a link, so that no allowed root is written canonically, every
      absolute path is refused, those below the roots included. */
  lemma {:induction false} LinkedRootsGrantNothing(w: World, top: Scope, path: Path, l: Loc, tail: Path)
    requires Sound(w) && WellFormed(path) && IsAbsolute(path) && Parent(top.package).Some?
    requires forall i :: 0 <= i < |top.allowedRoots| ==>
      Canonicalize(w, top.allowedRoots[i]).Some? && Canonicalize(w, top.allowedRoots[i]).value != top.allowedRoots[i]
    requires BestEffort(Fs(w), path).Some? ==> Ends(w, BestEffort(Fs(w), path).value, l, tail) && Dangling(w, l, tail)
    ensures Resolved(Fs(w), Some(top), path).Err?
  {
    AbsoluteNeedsAnAllowedRoot(w, top, path, l, tail);
  }
}

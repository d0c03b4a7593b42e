/** Recognising what an unpacked package is and where its root lies, when it is fetched and
    again when it is found in the cache. */
module PackageKinds {
  import opened Text

  datatype PackageKind = HelmChart | KclModule

  // ----- unpacked trees, as far as detection looks -----

  datatype EntryKind = RealDir | LinkToDir | OtherEntry

  /** A directory entry: its own type, and the names in it that are files. */
  datatype Entry = Entry(name: string, kind: EntryKind, files: set<string>)

  /** A cache slot: the names in it that are files, and its entries in the order they are
      listed (none when it cannot be listed). */
  datatype Tree = Tree(files: set<string>, entries: Option<seq<Entry>>)

  /** Where a package root lies: in the slot itself, or in one entry. */
  datatype Root = Here | Inside(name: string)

  // ----- detect_kind -----

  predicate DetectAt(t: Tree, markers: set<string>) {
    markers <= t.files ||
    (t.entries.Some? && exists i :: 0 <= i < |t.entries.value| && t.entries.value[i].kind == RealDir
                                 && markers <= t.entries.value[i].files)
  }

  function DetectKind(t: Tree): Option<PackageKind> {
    if DetectAt(t, {"Chart.yaml"}) then Some(HelmChart)
    else if DetectAt(t, {"kcl.mod"}) then Some(KclModule)
    else if DetectAt(t, {"akua.toml", "package.k"}) then Some(KclModule)
    else None
  }

  // ----- find_package_root -----

  function Markers(kind: PackageKind): set<string> {
    match kind case HelmChart => {"Chart.yaml"} case KclModule => {"kcl.mod", "package.k"}
  }

  predicate HasMarker(files: set<string>, kind: PackageKind) { files * Markers(kind) != {} }

  predicate MarkedEntry(e: Entry, kind: PackageKind) { !e.kind.OtherEntry? && HasMarker(e.files, kind) }

  datatype RootError = Io | NoMarker

  /** Independent of the search: the slot when it is marked, else the first marked entry. */
  predicate IsRoot(t: Tree, kind: PackageKind, r: Result<Root, RootError>) {
    if HasMarker(t.files, kind) then r == Ok(Here)
    else if t.entries.None? then r == Err(Io)
    else
      var es := t.entries.value;
      match r
      case Ok(root) => exists i :: 0 <= i < |es| && root == Inside(es[i].name) && FirstMarked(es, kind, i)
      case Err(e) => e == NoMarker && forall i :: 0 <= i < |es| ==> !MarkedEntry(es[i], kind)
  }

  predicate FirstMarked(es: seq<Entry>, kind: PackageKind, i: nat) {
    i < |es| && MarkedEntry(es[i], kind) && forall j :: 0 <= j < i ==> !MarkedEntry(es[j], kind)
  }

  method FindPackageRoot(t: Tree, kind: PackageKind) returns (r: Result<Root, RootError>)
    ensures IsRoot(t, kind, r)
    ensures r == FoundRoot(t, kind)
  {
    if HasMarker(t.files, kind) {
      return Ok(Here);
    }
    if t.entries.None? {
      return Err(Io);
    }
    var es := t.entries.value;
    var i := 0;
    while i < |es|
      invariant i <= |es|
      invariant forall j :: 0 <= j < i ==> !MarkedEntry(es[j], kind)
    {
      if MarkedEntry(es[i], kind) {
        assert FirstMarked(es, kind, i);
        FoundRootIs(t, kind, Ok(Inside(es[i].name)));
        return Ok(Inside(es[i].name));
      }
      i := i + 1;
    }
    r := Err(NoMarker);
    FoundRootIs(t, kind, r);
  }

  function FirstIn(es: seq<Entry>, kind: PackageKind): Option<Entry> {
    if es == [] then None else if MarkedEntry(es[0], kind) then Some(es[0]) else FirstIn(es[1..], kind)
  }

  function FoundRoot(t: Tree, kind: PackageKind): Result<Root, RootError> {
    if HasMarker(t.files, kind) then Ok(Here)
    else if t.entries.None? then Err(Io)
    else match FirstIn(t.entries.value, kind)
      case Some(e) => Ok(Inside(e.name))
      case None => Err(NoMarker)
  }

  lemma {:induction false} FirstInFinds(es: seq<Entry>, kind: PackageKind, i: nat)
    requires FirstMarked(es, kind, i)
    ensures FirstIn(es, kind) == Some(es[i])
  {
    if i > 0 {
      assert !MarkedEntry(es[0], kind);
      FirstInFinds(es[1..], kind, i - 1);
    }
  }

  lemma {:induction false} FirstInMisses(es: seq<Entry>, kind: PackageKind)
    requires forall i :: 0 <= i < |es| ==> !MarkedEntry(es[i], kind)
    ensures FirstIn(es, kind) == None
  {
    if es != [] {
      FirstInMisses(es[1..], kind);
    }
  }

  /** Only one answer satisfies the description. */
  lemma {:induction false} FoundRootIs(t: Tree, kind: PackageKind, r: Result<Root, RootError>)
    requires IsRoot(t, kind, r)
    ensures r == FoundRoot(t, kind)
  {
    if !HasMarker(t.files, kind) && t.entries.Some? {
      var es := t.entries.value;
      if r.Ok? {
        var i :| 0 <= i < |es| && r.value == Inside(es[i].name) && FirstMarked(es, kind, i);
        FirstInFinds(es, kind, i);
      } else {
        FirstInMisses(es, kind);
      }
    }
  }

  // ----- fetching, and finding again -----

  datatype Artifact = Artifact(root: Root, digest: string, kind: PackageKind)

  /** The end of a fetch: the root for the kind the manifest declared. */
  function Landed(t: Tree, digest: string, kind: PackageKind): Result<Artifact, RootError> {
    match FoundRoot(t, kind) case Ok(r) => Ok(Artifact(r, digest, kind)) case Err(e) => Err(e)
  }

  function FetchFromCache(t: Tree, digest: string): Option<Artifact> {
    match DetectKind(t)
    case None => None
    case Some(kind) =>
      match FoundRoot(t, kind) case Ok(r) => Some(Artifact(r, digest, kind)) case Err(_) => None
  }

  /** The fast path of a fetch with a pinned digest: nothing on a miss. */
  function FastPath(t: Tree, digest: string): Option<Result<Artifact, RootError>> {
    match DetectKind(t) case None => None case Some(kind) => Some(Landed(t, digest, kind))
  }

  /** A tree that is recognised always has a root of that kind. */
  lemma {:induction false} DetectedHasRoot(t: Tree)
    requires DetectKind(t).Some?
    ensures FoundRoot(t, DetectKind(t).value).Ok?
  {
    var kind := DetectKind(t).value;
    if DetectAt(t, {"Chart.yaml"}) {
      MarkersSuffice(t, {"Chart.yaml"}, "Chart.yaml", kind);
    } else if DetectAt(t, {"kcl.mod"}) {
      MarkersSuffice(t, {"kcl.mod"}, "kcl.mod", kind);
    } else {
      MarkersSuffice(t, {"akua.toml", "package.k"}, "package.k", kind);
    }
  }

  lemma {:induction false} MarkersSuffice(t: Tree, markers: set<string>, m: string, kind: PackageKind)
    requires DetectAt(t, markers) && m in markers && m in Markers(kind)
    ensures FoundRoot(t, kind).Ok?
  {
    if markers <= t.files {
      assert m in t.files * Markers(kind);
    } else {
      var es := t.entries.value;
      var i :| 0 <= i < |es| && es[i].kind == RealDir && markers <= es[i].files;
      assert m in es[i].files * Markers(kind);
      SomeMarked(es, kind, i);
    }
  }

  lemma {:induction false} SomeMarked(es: seq<Entry>, kind: PackageKind, i: nat)
    requires i < |es| && MarkedEntry(es[i], kind)
    ensures FirstIn(es, kind).Some?
  {
    if i > 0 && !MarkedEntry(es[0], kind) {
      SomeMarked(es[1..], kind, i - 1);
    }
  }

  /** So the fast path either misses or returns an artifact, never an error, and agrees with
      the offline lookup. */
  lemma {:induction false} FastPathNeverFails(t: Tree, digest: string)
    ensures match FastPath(t, digest)
      case None => FetchFromCache(t, digest).None?
      case Some(r) => r.Ok? && FetchFromCache(t, digest) == Some(r.value)
  {
    if DetectKind(t).Some? {
      DetectedHasRoot(t);
    }
  }

  // ----- the same tree, listed in another order -----

  /** Entries of a directory have distinct names. */
  predicate Named(es: seq<Entry>) {
    forall i, j :: 0 <= i < j < |es| ==> es[i].name != es[j].name
  }

  ghost predicate SameTree(t: Tree, u: Tree) {
    && t.files == u.files
    && (t.entries.Some? <==> u.entries.Some?)
    && (t.entries.Some? ==> multiset(t.entries.value) == multiset(u.entries.value))
  }

  /** The root is marked, or no two entries are. */
  predicate OneCandidate(t: Tree, kind: PackageKind) {
    HasMarker(t.files, kind) || t.entries.None? ||
    forall i, j :: 0 <= i < j < |t.entries.value| ==>
      !(MarkedEntry(t.entries.value[i], kind) && MarkedEntry(t.entries.value[j], kind))
  }

  lemma {:induction false} SameElements(es: seq<Entry>, fs: seq<Entry>, i: nat) returns (j: nat)
    requires multiset(es) == multiset(fs) && i < |es|
    ensures j < |fs| && fs[j] == es[i]
  {
    assert es[i] in multiset(fs);
    j :| 0 <= j < |fs| && fs[j] == es[i];
  }

  lemma {:induction false} DetectAtAnyOrder(t: Tree, u: Tree, markers: set<string>)
    requires SameTree(t, u) && DetectAt(t, markers)
    ensures DetectAt(u, markers)
  {
    if !(markers <= t.files) {
      var i :| 0 <= i < |t.entries.value| && t.entries.value[i].kind == RealDir && markers <= t.entries.value[i].files;
      var j := SameElements(t.entries.value, u.entries.value, i);
    }
  }

  /** Which kind is detected does not depend on the order of listing. */
  lemma {:induction false} DetectionIgnoresOrder(t: Tree, u: Tree)
    requires SameTree(t, u)
    ensures DetectKind(t) == DetectKind(u)
  {
    forall markers | markers in {{"Chart.yaml"}, {"kcl.mod"}, {"akua.toml", "package.k"}}
      ensures DetectAt(t, markers) <==> DetectAt(u, markers)
    {
      if DetectAt(t, markers) { DetectAtAnyOrder(t, u, markers); }
      if DetectAt(u, markers) { DetectAtAnyOrder(u, t, markers); }
    }
  }

  lemma {:induction false} FirstInIsMarked(es: seq<Entry>, kind: PackageKind) returns (i: nat)
    requires FirstIn(es, kind).Some?
    ensures FirstMarked(es, kind, i) && FirstIn(es, kind) == Some(es[i])
  {
    if MarkedEntry(es[0], kind) {
      i := 0;
    } else {
      var k := FirstInIsMarked(es[1..], kind);
      i := k + 1;
      assert forall j :: 0 < j < i ==> es[j] == es[1..][j - 1];
    }
  }

  lemma {:induction false} OneCandidateAnyOrder(t: Tree, u: Tree, kind: PackageKind)
    requires SameTree(t, u) && OneCandidate(t, kind)
    ensures FoundRoot(u, kind) == FoundRoot(t, kind)
  {
    if !HasMarker(t.files, kind) && t.entries.Some? {
      var es, fs := t.entries.value, u.entries.value;
      if FirstIn(es, kind).Some? {
        var i := FirstInIsMarked(es, kind);
        var j := SameElements(es, fs, i);
        SomeMarked(fs, kind, j);
        var k := FirstInIsMarked(fs, kind);
        var l := SameElements(fs, es, k);
        assert l == i;
      } else if FirstIn(fs, kind).Some? {
        var k := FirstInIsMarked(fs, kind);
        var l := SameElements(fs, es, k);
        SomeMarked(es, kind, l);
      }
    }
  }

  /** The root is the same in every order of listing if and only if there is one candidate. */
  lemma {:induction false} RootIgnoresOrderExactly(t: Tree, kind: PackageKind)
    requires t.entries.Some? ==> Named(t.entries.value)
    ensures OneCandidate(t, kind) <==> forall u :: SameTree(t, u) ==> FoundRoot(u, kind) == FoundRoot(t, kind)
  {
    if OneCandidate(t, kind) {
      forall u | SameTree(t, u) ensures FoundRoot(u, kind) == FoundRoot(t, kind) {
        OneCandidateAnyOrder(t, u, kind);
      }
    } else {
      var es := t.entries.value;
      var i, j :| 0 <= i < j < |es| && MarkedEntry(es[i], kind) && MarkedEntry(es[j], kind);
      var u := AnotherRoot(t, kind, i, j);
    }
  }

  /** With two candidates, listing the second one first moves the root. */
  lemma {:induction false} AnotherRoot(t: Tree, kind: PackageKind, i: nat, j: nat) returns (u: Tree)
    requires !HasMarker(t.files, kind) && t.entries.Some? && Named(t.entries.value)
    requires i < j < |t.entries.value|
    requires MarkedEntry(t.entries.value[i], kind) && MarkedEntry(t.entries.value[j], kind)
    ensures SameTree(t, u) && FoundRoot(u, kind) != FoundRoot(t, kind)
  {
    var es := t.entries.value;
    SomeMarked(es, kind, i);
    var k := FirstInIsMarked(es, kind);
    assert k <= i;
    var fs := MoveToFront(es, j);
    u := Tree(t.files, Some(fs));
    assert FirstIn(fs, kind) == Some(es[j]);
    assert es[k].name != es[j].name;
  }

  lemma {:induction false} MoveToFront(es: seq<Entry>, j: nat) returns (fs: seq<Entry>)
    requires j < |es|
    ensures multiset(fs) == multiset(es) && |fs| > 0 && fs[0] == es[j]
  {
    fs := [es[j]] + (es[..j] + es[j + 1..]);
    assert es == es[..j] + ([es[j]] + es[j + 1..]);
  }

  /** In the slot itself, or in a directory of its own right one level down. */
  predicate Has(t: Tree, marker: string) {
    marker in t.files ||
    (t.entries.Some? && exists i :: 0 <= i < |t.entries.value| && t.entries.value[i].kind == RealDir
                                 && marker in t.entries.value[i].files)
  }

  /** Both files of an akua package, side by side. */
  predicate HasPair(t: Tree) {
    ("akua.toml" in t.files && "package.k" in t.files) ||
    (t.entries.Some? && exists i :: 0 <= i < |t.entries.value| && t.entries.value[i].kind == RealDir
                                 && "akua.toml" in t.entries.value[i].files && "package.k" in t.entries.value[i].files)
  }

  lemma {:induction false} DetectByMarkers(t: Tree)
    ensures forall m :: DetectAt(t, {m}) <==> Has(t, m)
    ensures DetectAt(t, {"akua.toml", "package.k"}) <==> HasPair(t)
  {
    assert forall m, files: set<string> :: {m} <= files <==> m in files;
    assert forall files: set<string> ::
        {"akua.toml", "package.k"} <= files <==> "akua.toml" in files && "package.k" in files;
  }

  /** A fetched package is found again, with the same root and kind, exactly by its marker
      files: a chart when `Chart.yaml` is not only behind a link; a KCL package when there is
      no `Chart.yaml`, and there is a `kcl.mod`, or `akua.toml` and `package.k` together. */
  lemma {:induction false} CacheReturnsFetchedExactly(t: Tree, u: Tree, digest: string, kind: PackageKind)
    requires SameTree(t, u) && OneCandidate(t, kind) && Landed(t, digest, kind).Ok?
    ensures FetchFromCache(u, digest) == Some(Landed(t, digest, kind).value) <==>
      match kind
      case HelmChart => Has(t, "Chart.yaml")
      case KclModule => !Has(t, "Chart.yaml") && (Has(t, "kcl.mod") || HasPair(t))
  {
    DetectionIgnoresOrder(t, u);
    OneCandidateAnyOrder(t, u, kind);
    DetectByMarkers(t);
  }

  predicate BehindLink(t: Tree, root: Root) {
    t.entries.Some? && exists i :: 0 <= i < |t.entries.value| && t.entries.value[i].kind == LinkToDir
                                && root == Inside(t.entries.value[i].name)
  }

  /** A chart that landed is lost to the cache if and only if its root is a linked directory. */
  lemma {:induction false} LinkedChartIsLost(t: Tree, digest: string)
    requires OneCandidate(t, HelmChart) && (t.entries.Some? ==> Named(t.entries.value))
    requires Landed(t, digest, HelmChart).Ok?
    ensures Has(t, "Chart.yaml") <==> !BehindLink(t, Landed(t, digest, HelmChart).value.root)
  {
    assert forall files :: HasMarker(files, HelmChart) <==> "Chart.yaml" in files by {
      forall files ensures HasMarker(files, HelmChart) <==> "Chart.yaml" in files {
        assert "Chart.yaml" in files ==> "Chart.yaml" in files * Markers(HelmChart);
      }
    }
    if !HasMarker(t.files, HelmChart) {
      var k := FirstInIsMarked(t.entries.value, HelmChart);
      assert t.entries.value[k].name == FirstIn(t.entries.value, HelmChart).value.name;
    }
  }

  /** A package of which only `package.k` marks the root is fetched again every time. */
  lemma {:induction false} BarePackageIsNeverCached(t: Tree, digest: string)
    requires "package.k" in t.files && Unrecognised(t.files)
    requires t.entries.Some? ==> forall i :: 0 <= i < |t.entries.value| ==> Unrecognised(t.entries.value[i].files)
    ensures Landed(t, digest, KclModule) == Ok(Artifact(Here, digest, KclModule))
    ensures FetchFromCache(t, digest) == None && FastPath(t, digest) == None
  {
    assert "package.k" in t.files * Markers(KclModule);
    assert "Chart.yaml" in {"Chart.yaml"} && "kcl.mod" in {"kcl.mod"} && "akua.toml" in {"akua.toml", "package.k"};
  }

  predicate Unrecognised(files: set<string>) {
    "Chart.yaml" !in files && "kcl.mod" !in files && "akua.toml" !in files
  }

  /** A KCL package with a Helm chart one level down comes back from the cache as that chart. */
  lemma {:induction false} VendoredChartChangesKind(digest: string, chart: string)
    ensures
      var t := Tree({"akua.toml", "package.k"}, Some([Entry(chart, RealDir, {"Chart.yaml"})]));
      && Landed(t, digest, KclModule) == Ok(Artifact(Here, digest, KclModule))
      && FetchFromCache(t, digest) == Some(Artifact(Inside(chart), digest, HelmChart))
  {
    var e := Entry(chart, RealDir, {"Chart.yaml"});
    var t := Tree({"akua.toml", "package.k"}, Some([e]));
    assert "package.k" in t.files * Markers(KclModule);
    assert t.entries.value[0] == e && DetectAt(t, {"Chart.yaml"});
    assert "Chart.yaml"[0] == 'C' && "akua.toml"[0] == 'a' && "package.k"[0] == 'p';
    assert t.files * Markers(HelmChart) == {};
    assert "Chart.yaml" in e.files * Markers(HelmChart);
    assert FirstMarked([e], HelmChart, 0);
    FirstInFinds([e], HelmChart, 0);
  }
}

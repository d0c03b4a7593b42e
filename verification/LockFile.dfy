/** `akua.lock`: a vector of pinned packages, and the merge of freshly resolved charts. */
module LockFile {
  import opened Text
  import opened Sorting
  import Urls

  type Key = (string, string)

  datatype LockedPackage = LockedPackage(
    name: string, version: string, source: string, digest: string,
    vendorDigest: Option<string>, signature: Option<string>, dependencies: seq<string>,
    attestation: Option<string>, replaced: Option<string>, yanked: Option<bool>,
    kyvernoSourceDigest: Option<string>, converterVersion: Option<string>)

  datatype ResolvedSource =
    | Path(declared: string)
    | Oci(oci: string, version: string, blobDigest: string)
    | OciReplaced(oci: string, version: string, replacePath: string)
    | Git(git: string, tagOrRev: string, commitSha: string)
    | GitReplaced(git: string, tagOrRev: string, replacePath: string)
    | Helm(repo: string, chart: string, version: string, digest: string)

  datatype Chart = Chart(name: string, source: ResolvedSource, sha256: string)

  datatype LockError =
    | VersionMismatch(found: nat)
    | UnsortedPackages(later: string, earlier: string)
    | DuplicatePackage(name: string)
    | BadDigest(name: string)

  const CURRENT_VERSION: nat := 1

  function KeyOf(p: LockedPackage): Key { (p.name, p.version) }

  function ChartKey(c: Chart): Key { (c.name, LockedVersion(c.source)) }

  predicate PackageBefore(p: LockedPackage, q: LockedPackage) {
    Before(p.name, q.name) || (p.name == q.name && Before(p.version, q.version))
  }

  predicate GoodDigest(p: LockedPackage) { StartsWith(p.digest, "sha256:") || StartsWith(p.digest, "git:") }

  // ----- what a resolved source writes into the lock -----

  function LockedSource(s: ResolvedSource): string {
    match s
    case Path(declared) => "path+file://" + declared
    case Oci(oci, _, _) => oci
    case OciReplaced(oci, _, _) => oci
    case Git(git, tagOrRev, _) => "git+" + Urls.Canonical(git) + "@" + tagOrRev
    case GitReplaced(git, tagOrRev, _) => "git+" + Urls.Canonical(git) + "@" + tagOrRev
    case Helm(repo, chart, _, _) => "helm+" + repo + "#" + chart
  }

  function LockedVersion(s: ResolvedSource): string {
    match s
    case Path(_) => "local"
    case Oci(_, version, _) => version
    case OciReplaced(_, version, _) => version
    case Git(_, tagOrRev, _) => tagOrRev
    case GitReplaced(_, tagOrRev, _) => tagOrRev
    case Helm(_, _, version, _) => version
  }

  function LockedReplacement(s: ResolvedSource): Option<string> {
    match s
    case OciReplaced(_, _, path) => Some(path)
    case GitReplaced(_, _, path) => Some(path)
    case _ => None
  }

  /** The entry for a chart, given the entry it supersedes: metadata tied to bytes is
      carried over only while the digest stays. */
  function Entry(prior: Option<LockedPackage>, c: Chart): LockedPackage {
    var carry := if prior.Some? && prior.value.digest == c.sha256 then prior else None;
    LockedPackage(
      c.name, LockedVersion(c.source), LockedSource(c.source), c.sha256,
      if carry.Some? then carry.value.vendorDigest else None,
      if carry.Some? then carry.value.signature else None,
      if carry.Some? then carry.value.dependencies else [],
      if carry.Some? then carry.value.attestation else None,
      LockedReplacement(c.source),
      if carry.Some? then carry.value.yanked else None,
      if carry.Some? then carry.value.kyvernoSourceDigest else None,
      if carry.Some? then carry.value.converterVersion else None)
  }

  // ----- the vector -----

  /** First entry with the key. */
  function SlotOf(ps: seq<LockedPackage>, key: Key): (slot: Option<nat>)
    ensures slot.Some? ==> slot.value < |ps| && KeyOf(ps[slot.value]) == key
    ensures slot.Some? ==> forall i :: 0 <= i < slot.value ==> KeyOf(ps[i]) != key
    ensures slot.None? ==> forall i :: 0 <= i < |ps| ==> KeyOf(ps[i]) != key
  {
    if ps == [] then None
    else if KeyOf(ps[0]) == key then Some(0)
    else match SlotOf(ps[1..], key) case Some(i) => Some(i + 1) case None => None
  }

  function Find(ps: seq<LockedPackage>, key: Key): Option<LockedPackage> {
    match SlotOf(ps, key) case Some(i) => Some(ps[i]) case None => None
  }

  function Put(ps: seq<LockedPackage>, slot: Option<nat>, entry: LockedPackage): seq<LockedPackage>
    requires slot.Some? ==> slot.value < |ps|
  {
    match slot case Some(i) => ps[i := entry] case None => ps + [entry]
  }

  function Upserted(ps: seq<LockedPackage>, c: Chart): seq<LockedPackage> {
    Put(ps, SlotOf(ps, ChartKey(c)), Entry(Find(ps, ChartKey(c)), c))
  }

  function UpsertedAll(ps: seq<LockedPackage>, cs: seq<Chart>): seq<LockedPackage>
    decreases |cs|
  {
    if cs == [] then ps else UpsertedAll(Upserted(ps, cs[0]), cs[1..])
  }

  function Merged(ps: seq<LockedPackage>, cs: seq<Chart>): seq<LockedPackage> {
    SortBy(PackageBefore, UpsertedAll(ps, cs))
  }

  // ----- validation -----

  /** The first neighbouring pair that is out of order or a duplicate. */
  function NeighbourError(ps: seq<LockedPackage>): Option<LockError> {
    if |ps| < 2 then None
    else if Before(ps[1].name, ps[0].name) then Some(UnsortedPackages(ps[1].name, ps[0].name))
    else if KeyOf(ps[0]) == KeyOf(ps[1]) then Some(DuplicatePackage(ps[0].name))
    else NeighbourError(ps[1..])
  }

  function DigestError(ps: seq<LockedPackage>): Option<LockError> {
    if ps == [] then None
    else if !GoodDigest(ps[0]) then Some(BadDigest(ps[0].name))
    else DigestError(ps[1..])
  }

  function Verdict(version: nat, ps: seq<LockedPackage>): Option<LockError> {
    if version != CURRENT_VERSION then Some(VersionMismatch(version))
    else if NeighbourError(ps).Some? then NeighbourError(ps)
    else DigestError(ps)
  }

  class AkuaLock {
    var version: nat
    var packages: seq<LockedPackage>

    constructor Empty()
      ensures version == CURRENT_VERSION && packages == []
    {
      version, packages := CURRENT_VERSION, [];
    }

    method FindSlot(name: string, ver: string) returns (slot: Option<nat>)
      ensures slot == SlotOf(packages, (name, ver))
    {
      var i := 0;
      while i < |packages|
        invariant i <= |packages|
        invariant forall j :: 0 <= j < i ==> KeyOf(packages[j]) != (name, ver)
      {
        if packages[i].name == name && packages[i].version == ver {
          return Some(i);
        }
        i := i + 1;
      }
      slot := None;
    }

    method UpsertAt(slot: Option<nat>, entry: LockedPackage)
      requires slot.Some? ==> slot.value < |packages|
      modifies this`packages
      ensures packages == Put(old(packages), slot, entry)
    {
      match slot {
        case Some(i) => packages := packages[i := entry];
        case None => packages := packages + [entry];
      }
    }

    method Sort()
      modifies this`packages
      ensures packages == SortBy(PackageBefore, old(packages))
      ensures Sorted(PackageBefore, packages) && multiset(packages) == multiset(old(packages))
    {
      OrderOfPackages();
      SortSpec(PackageBefore, packages);
      packages := SortBy(PackageBefore, packages);
    }

    method Validate() returns (error: Option<LockError>)
      ensures error == Verdict(version, packages)
    {
      if version != CURRENT_VERSION {
        return Some(VersionMismatch(version));
      }
      var i := 0;
      while i + 1 < |packages|
        invariant i <= |packages|
        invariant NeighbourError(packages) == NeighbourError(packages[i..])
      {
        var a, b := packages[i], packages[i + 1];
        assert packages[i..][1..] == packages[i + 1..];
        if Before(b.name, a.name) {
          return Some(UnsortedPackages(b.name, a.name));
        }
        if a.name == b.name && a.version == b.version {
          return Some(DuplicatePackage(a.name));
        }
        i := i + 1;
      }
      i := 0;
      while i < |packages|
        invariant i <= |packages|
        invariant DigestError(packages) == DigestError(packages[i..])
      {
        assert packages[i..][1..] == packages[i + 1..];
        if !GoodDigest(packages[i]) {
          return Some(BadDigest(packages[i].name));
        }
        i := i + 1;
      }
      error := None;
    }
  }

  method UpsertLockedFromSource(lock: AkuaLock, name: string, source: ResolvedSource, digest: string)
    modifies lock`packages
    ensures lock.packages == Upserted(old(lock.packages), Chart(name, source, digest))
  {
    var version := LockedVersion(source);
    var slot := lock.FindSlot(name, version);
    var carry := None;
    if slot.Some? && lock.packages[slot.value].digest == digest {
      carry := Some(lock.packages[slot.value]);
    }
    var entry := LockedPackage(
      name, version, LockedSource(source), digest,
      if carry.Some? then carry.value.vendorDigest else None,
      if carry.Some? then carry.value.signature else None,
      if carry.Some? then carry.value.dependencies else [],
      if carry.Some? then carry.value.attestation else None,
      LockedReplacement(source),
      if carry.Some? then carry.value.yanked else None,
      if carry.Some? then carry.value.kyvernoSourceDigest else None,
      if carry.Some? then carry.value.converterVersion else None);
    lock.UpsertAt(slot, entry);
  }

  method MergeIntoLock(lock: AkuaLock, resolved: seq<Chart>)
    modifies lock`packages
    ensures lock.packages == Merged(old(lock.packages), resolved)
  {
    var i := 0;
    while i < |resolved|
      invariant i <= |resolved|
      invariant UpsertedAll(old(lock.packages), resolved) == UpsertedAll(lock.packages, resolved[i..])
    {
      assert resolved[i..][1..] == resolved[i + 1..];
      UpsertLockedFromSource(lock, resolved[i].name, resolved[i].source, resolved[i].sha256);
      i := i + 1;
    }
    lock.Sort();
  }

  lemma {:induction false} OrderOfPackages()
    ensures IsOrder(PackageBefore)
  {
    forall p, q | PackageBefore(p, q) ensures !PackageBefore(q, p) {
      BeforeTotal(p.name, q.name);
      BeforeTotal(p.version, q.version);
    }
    forall p, q, r | !PackageBefore(q, p) && !PackageBefore(r, q) ensures !PackageBefore(r, p) {
      PackagesWeaklyOrdered(p, q, r);
    }
  }

  lemma {:induction false} PackagesWeaklyOrdered(p: LockedPackage, q: LockedPackage, r: LockedPackage)
    requires !PackageBefore(q, p) && !PackageBefore(r, q)
    ensures !PackageBefore(r, p)
  {
    BeforeTotal(p.name, q.name);
    BeforeTotal(q.name, r.name);
    BeforeTotal(p.name, r.name);
    BeforeTotal(p.version, q.version);
    BeforeTotal(q.version, r.version);
    BeforeTotal(p.version, r.version);
    if Before(p.name, q.name) && Before(q.name, r.name) { BeforeTransitive(p.name, q.name, r.name); }
    if Before(p.version, q.version) && Before(q.version, r.version) {
      BeforeTransitive(p.version, q.version, r.version);
    }
  }
}

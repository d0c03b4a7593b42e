/** The lock as a keyed map: what a merge does to it, and what `validate` decides. */
module LockProperties {
  import opened Text
  import opened Sorting
  import opened LockFile

  ghost predicate Unique(ps: seq<LockedPackage>) {
    forall i, j :: 0 <= i < j < |ps| ==> KeyOf(ps[i]) != KeyOf(ps[j])
  }

  /** The dependency names of one resolution are the keys of a map. */
  ghost predicate DistinctNames(cs: seq<Chart>) {
    forall i, j :: 0 <= i < j < |cs| ==> cs[i].name != cs[j].name
  }

  /** The chart that resolves a key. */
  function ChartFor(cs: seq<Chart>, k: Key): (c: Option<Chart>)
    ensures c.Some? ==> c.value in cs && ChartKey(c.value) == k
    ensures c.None? ==> forall i :: 0 <= i < |cs| ==> ChartKey(cs[i]) != k
  {
    if cs == [] then None
    else if ChartKey(cs[0]) == k then Some(cs[0])
    else ChartFor(cs[1..], k)
  }

  /** Map override, at one key. */
  function Override(prior: Option<LockedPackage>, c: Option<Chart>): Option<LockedPackage> {
    match c case Some(chart) => Some(Entry(prior, chart)) case None => prior
  }

  /** Two locks are the same map from (name, version) to entry. */
  ghost predicate SameMap(ps: seq<LockedPackage>, qs: seq<LockedPackage>) {
    forall k :: Find(ps, k) == Find(qs, k)
  }

  lemma {:induction false} FindAt(ps: seq<LockedPackage>, i: nat)
    requires Unique(ps) && i < |ps|
    ensures Find(ps, KeyOf(ps[i])) == Some(ps[i])
  {
    var s := SlotOf(ps, KeyOf(ps[i]));
    assert s.Some? && s.value == i;
  }

  // ----- one upsert, then all of them -----

  lemma {:induction false} FindAfterPut(ps: seq<LockedPackage>, key: Key, entry: LockedPackage, k: Key)
    requires KeyOf(entry) == key
    ensures Find(Put(ps, SlotOf(ps, key), entry), k) == if k == key then Some(entry) else Find(ps, k)
  {
    var qs := Put(ps, SlotOf(ps, key), entry);
    var s, t := SlotOf(ps, k), SlotOf(qs, k);
    if k == key {
      var i := if s.Some? then s.value else |ps|;
      assert qs[i] == entry;
      assert forall j :: 0 <= j < i ==> qs[j] == ps[j];
      assert t.Some? && t.value == i;
    } else {
      forall j | 0 <= j < |ps|
        ensures (KeyOf(qs[j]) == k) == (KeyOf(ps[j]) == k) && (KeyOf(ps[j]) == k ==> qs[j] == ps[j])
      {
      }
      assert s.Some? ==> KeyOf(qs[s.value]) == k;
      assert t.Some? ==> t.value < |ps| && KeyOf(ps[t.value]) == k;
    }
  }

  lemma {:induction false} UniqueAfterPut(ps: seq<LockedPackage>, entry: LockedPackage)
    requires Unique(ps)
    ensures Unique(Put(ps, SlotOf(ps, KeyOf(entry)), entry))
  {
  }

  lemma {:induction false} ChartForRest(cs: seq<Chart>)
    requires DistinctNames(cs) && cs != []
    ensures ChartFor(cs[1..], ChartKey(cs[0])).None? && DistinctNames(cs[1..])
  {
    assert forall i :: 0 <= i < |cs[1..]| ==> cs[1..][i].name != cs[0].name;
  }

  lemma {:induction false} UpsertAllOverrides(ps: seq<LockedPackage>, cs: seq<Chart>, k: Key)
    requires DistinctNames(cs)
    ensures Find(UpsertedAll(ps, cs), k) == Override(Find(ps, k), ChartFor(cs, k))
    decreases |cs|
  {
    if cs != [] {
      var key := ChartKey(cs[0]);
      var e := Entry(Find(ps, key), cs[0]);
      FindAfterPut(ps, key, e, k);
      ChartForRest(cs);
      UpsertAllOverrides(Upserted(ps, cs[0]), cs[1..], k);
    }
  }

  lemma {:induction false} UpsertAllUnique(ps: seq<LockedPackage>, cs: seq<Chart>)
    requires Unique(ps)
    ensures Unique(UpsertedAll(ps, cs))
    decreases |cs|
  {
    if cs != [] {
      UniqueAfterPut(ps, Entry(Find(ps, ChartKey(cs[0])), cs[0]));
      UpsertAllUnique(Upserted(ps, cs[0]), cs[1..]);
    }
  }

  // ----- sorting does not change the map -----

  lemma {:induction false} UniqueIsDistinct(ps: seq<LockedPackage>)
    ensures Unique(ps) == Distinct(PackageBefore, ps)
  {
    forall i, j | 0 <= i < j < |ps|
      ensures (KeyOf(ps[i]) != KeyOf(ps[j])) == (PackageBefore(ps[i], ps[j]) || PackageBefore(ps[j], ps[i]))
    {
      BeforeTotal(ps[i].name, ps[j].name);
      BeforeTotal(ps[i].version, ps[j].version);
    }
  }

  /** Every key occurs once, or not at all. */
  lemma {:induction false} UniqueCounts(ps: seq<LockedPackage>, p: LockedPackage)
    requires Unique(ps)
    ensures multiset(ps)[p] == if Find(ps, KeyOf(p)) == Some(p) then 1 else 0
  {
    if p in multiset(ps) {
      var i :| 0 <= i < |ps| && ps[i] == p;
      FindAt(ps, i);
      assert ps == ps[..i] + [p] + ps[i + 1..];
      assert p !in ps[..i] && p !in ps[i + 1..];
    } else if Find(ps, KeyOf(p)).Some? {
      assert Find(ps, KeyOf(p)).value in multiset(ps);
    }
  }

  lemma {:induction false} SameMapSameElements(ps: seq<LockedPackage>, qs: seq<LockedPackage>)
    requires Unique(ps) && Unique(qs) && SameMap(ps, qs)
    ensures multiset(ps) == multiset(qs)
  {
    forall p ensures multiset(ps)[p] == multiset(qs)[p] {
      UniqueCounts(ps, p);
      UniqueCounts(qs, p);
    }
  }

  lemma {:induction false} SameElementsUnique(ps: seq<LockedPackage>, qs: seq<LockedPackage>)
    requires Unique(ps) && multiset(ps) == multiset(qs)
    ensures Unique(qs)
  {
    forall i, j | 0 <= i < j < |qs| ensures KeyOf(qs[i]) != KeyOf(qs[j]) {
      UniqueCounts(ps, qs[i]);
      UniqueCounts(ps, qs[j]);
      assert qs[i] in multiset(ps) && qs[j] in multiset(ps);
      if qs[i] == qs[j] { CountTwo(qs, i, j); }
    }
  }

  lemma {:induction false} SameElementsSameMap(ps: seq<LockedPackage>, qs: seq<LockedPackage>)
    requires Unique(ps) && multiset(ps) == multiset(qs)
    ensures Unique(qs) && SameMap(ps, qs)
  {
    SameElementsUnique(ps, qs);
    forall k ensures Find(ps, k) == Find(qs, k) {
      FoundInBoth(ps, qs, k);
      FoundInBoth(qs, ps, k);
    }
  }

  lemma {:induction false} FoundInBoth(ps: seq<LockedPackage>, qs: seq<LockedPackage>, k: Key)
    requires Unique(ps) && Unique(qs) && multiset(ps) == multiset(qs)
    ensures Find(ps, k).Some? ==> Find(qs, k) == Find(ps, k)
  {
    if Find(ps, k).Some? {
      assert Find(ps, k).value in multiset(qs);
      var i :| 0 <= i < |qs| && qs[i] == Find(ps, k).value;
      FindAt(qs, i);
    }
  }

  // ----- the merge -----

  /** A merge overrides the old map with the resolved entries, and sorts. */
  lemma {:induction false} MergeOverrides(ps: seq<LockedPackage>, cs: seq<Chart>)
    requires Unique(ps) && DistinctNames(cs)
    ensures Unique(Merged(ps, cs)) && Sorted(PackageBefore, Merged(ps, cs))
    ensures forall k :: Find(Merged(ps, cs), k) == Override(Find(ps, k), ChartFor(cs, k))
  {
    OrderOfPackages();
    UpsertAllUnique(ps, cs);
    SortSpec(PackageBefore, UpsertedAll(ps, cs));
    SameElementsSameMap(UpsertedAll(ps, cs), Merged(ps, cs));
    forall k ensures Find(Merged(ps, cs), k) == Override(Find(ps, k), ChartFor(cs, k)) {
      UpsertAllOverrides(ps, cs, k);
    }
  }

  /** A lock sorted by key is determined by its map. */
  lemma {:induction false} SortedLockIsItsMap(ps: seq<LockedPackage>, qs: seq<LockedPackage>)
    requires Unique(ps) && Unique(qs) && SameMap(ps, qs)
    requires Sorted(PackageBefore, ps) && Sorted(PackageBefore, qs)
    ensures ps == qs
  {
    OrderOfPackages();
    UniqueIsDistinct(ps);
    SameMapSameElements(ps, qs);
    SortedUnique(PackageBefore, ps, qs);
  }

  lemma {:induction false} ChartForPermuted(cs: seq<Chart>, ds: seq<Chart>, k: Key)
    requires DistinctNames(ds) && multiset(cs) == multiset(ds)
    ensures ChartFor(cs, k).Some? ==> ChartFor(ds, k) == ChartFor(cs, k)
  {
    var c := ChartFor(cs, k);
    if c.Some? {
      assert c.value in multiset(ds);
      var j :| 0 <= j < |ds| && ds[j] == c.value;
      var d := ChartFor(ds, k);
      assert d.Some?;
      var i :| 0 <= i < |ds| && ds[i] == d.value;
      assert ds[i].name == ds[j].name;
    }
  }

  /** The order in which charts are merged does not show. */
  lemma {:induction false} MergeOrderDoesNotMatter(ps: seq<LockedPackage>, cs: seq<Chart>, ds: seq<Chart>)
    requires Unique(ps) && DistinctNames(cs) && DistinctNames(ds) && multiset(cs) == multiset(ds)
    ensures Merged(ps, cs) == Merged(ps, ds)
  {
    MergeOverrides(ps, cs);
    MergeOverrides(ps, ds);
    forall k ensures ChartFor(cs, k) == ChartFor(ds, k) {
      ChartForPermuted(cs, ds, k);
      ChartForPermuted(ds, cs, k);
    }
    SortedLockIsItsMap(Merged(ps, cs), Merged(ps, ds));
  }

  /** A merged lock is in order of names, and within a name of versions. */
  lemma {:induction false} MergedIsOrdered(ps: seq<LockedPackage>, cs: seq<Chart>, i: nat, j: nat)
    requires i < j < |Merged(ps, cs)|
    ensures
      var p, q := Merged(ps, cs)[i], Merged(ps, cs)[j];
      Before(p.name, q.name) || (p.name == q.name && (Before(p.version, q.version) || p.version == q.version))
  {
    OrderOfPackages();
    SortSpec(PackageBefore, UpsertedAll(ps, cs));
    var p, q := Merged(ps, cs)[i], Merged(ps, cs)[j];
    BeforeTotal(p.name, q.name);
    BeforeTotal(p.version, q.version);
  }

  /** Merging the same resolution again changes nothing. */
  lemma {:induction false} MergeIdempotent(ps: seq<LockedPackage>, cs: seq<Chart>)
    requires Unique(ps) && DistinctNames(cs)
    ensures Merged(Merged(ps, cs), cs) == Merged(ps, cs)
  {
    var once := Merged(ps, cs);
    MergeOverrides(ps, cs);
    MergeOverrides(once, cs);
    forall k ensures Find(Merged(once, cs), k) == Find(once, k) {
      OverrideTwice(Find(ps, k), ChartFor(cs, k));
    }
    SortedLockIsItsMap(Merged(once, cs), once);
  }

  lemma {:induction false} OverrideTwice(prior: Option<LockedPackage>, c: Option<Chart>)
    ensures Override(Override(prior, c), c) == Override(prior, c)
  {
  }

  // ----- validation -----

  ghost predicate AllDigests(ps: seq<LockedPackage>) {
    forall i :: 0 <= i < |ps| ==> GoodDigest(ps[i])
  }

  lemma {:induction false} DigestErrorSpec(ps: seq<LockedPackage>)
    ensures DigestError(ps).None? <==> AllDigests(ps)
  {
    if ps != [] {
      DigestErrorSpec(ps[1..]);
      assert forall i :: 0 < i < |ps| ==> ps[i] == ps[1..][i - 1];
      assert AllDigests(ps) ==> forall i :: 0 <= i < |ps[1..]| ==> ps[1..][i] == ps[i + 1];
    }
  }

  /** What comparing neighbours finds out. */
  lemma {:induction false} NeighbourErrorSpec(ps: seq<LockedPackage>)
    ensures NeighbourError(ps).None? <==>
      forall i :: 0 <= i < |ps| - 1 ==> !Before(ps[i + 1].name, ps[i].name) && KeyOf(ps[i]) != KeyOf(ps[i + 1])
  {
    if |ps| >= 2 {
      NeighbourErrorSpec(ps[1..]);
      var qs := ps[1..];
      assert forall i :: 0 < i < |ps| ==> ps[i] == qs[i - 1];
      if NeighbourError(ps).None? {
        forall i | 0 <= i < |ps| - 1 ensures !Before(ps[i + 1].name, ps[i].name) && KeyOf(ps[i]) != KeyOf(ps[i + 1]) {
          if i > 0 { assert qs[i - 1] == ps[i] && qs[i] == ps[i + 1]; }
        }
      } else if !Before(ps[1].name, ps[0].name) && KeyOf(ps[0]) != KeyOf(ps[1]) {
        var i :| 0 <= i < |qs| - 1 && (Before(qs[i + 1].name, qs[i].name) || KeyOf(qs[i]) == KeyOf(qs[i + 1]));
        assert ps[i + 1] == qs[i] && ps[i + 2] == qs[i + 1];
      }
    }
  }

  /** On a lock sorted by (name, version), `validate` decides uniqueness of keys. */
  lemma {:induction false} ValidateDecidesSortedLocks(version: nat, ps: seq<LockedPackage>)
    requires Sorted(PackageBefore, ps)
    ensures Verdict(version, ps).None? <==> version == CURRENT_VERSION && Unique(ps) && AllDigests(ps)
  {
    DigestErrorSpec(ps);
    NeighbourErrorSpec(ps);
    if NeighbourError(ps).None? {
      forall i, j | 0 <= i < j < |ps| ensures KeyOf(ps[i]) != KeyOf(ps[j]) {
        SortedNeighbours(ps, i, j);
      }
    } else if Unique(ps) {
      forall i | 0 <= i < |ps| - 1 ensures !Before(ps[i + 1].name, ps[i].name) && KeyOf(ps[i]) != KeyOf(ps[i + 1]) {
        assert !PackageBefore(ps[i + 1], ps[i]);
      }
    }
  }

  lemma {:induction false} SortedNeighbours(ps: seq<LockedPackage>, i: nat, j: nat)
    requires Sorted(PackageBefore, ps) && i < j < |ps| && KeyOf(ps[i]) != KeyOf(ps[i + 1])
    ensures KeyOf(ps[i]) != KeyOf(ps[j])
  {
    var a, b := ps[i], ps[i + 1];
    BeforeTotal(a.name, b.name);
    BeforeTotal(a.version, b.version);
    assert !PackageBefore(b, a) && (j > i + 1 ==> !PackageBefore(ps[j], b));
  }

  /** Out of order it does not: `a@1, a@2, a@1` holds one key twice and is accepted. */
  lemma {:induction false} ValidateMissesDistantDuplicates(p: LockedPackage, q: LockedPackage)
    requires p.name == q.name && p.version != q.version && GoodDigest(p) && GoodDigest(q)
    ensures Verdict(CURRENT_VERSION, [p, q, p]).None? && !Unique([p, q, p])
  {
    var ps := [p, q, p];
    BeforeTotal(p.name, p.name);
    NeighbourErrorSpec(ps);
    DigestErrorSpec(ps);
    assert ps[0] == ps[2];
  }

  /** Neighbours at `i` that are out of order by name, or of one name and version. */
  predicate Clash(ps: seq<LockedPackage>, i: nat)
    requires i + 1 < |ps|
  {
    Before(ps[i + 1].name, ps[i].name) || (ps[i].name == ps[i + 1].name && ps[i].version == ps[i + 1].version)
  }

  predicate FirstClash(ps: seq<LockedPackage>, i: nat) {
    i + 1 < |ps| && Clash(ps, i) && forall j :: 0 <= j < i ==> !Clash(ps, j)
  }

  predicate NoClash(ps: seq<LockedPackage>) { forall j :: 0 <= j < |ps| - 1 ==> !Clash(ps, j) }

  /** Of two neighbours that clash, which error names which. */
  function ClashError(p: LockedPackage, q: LockedPackage): LockError {
    if Before(q.name, p.name) then UnsortedPackages(q.name, p.name) else DuplicatePackage(p.name)
  }

  ghost predicate IsPinned(p: LockedPackage) {
    exists rest :: p.digest == "sha256:" + rest || p.digest == "git:" + rest
  }

  ghost predicate FirstUnpinned(ps: seq<LockedPackage>, i: nat) {
    i < |ps| && !IsPinned(ps[i]) && forall j :: 0 <= j < i ==> IsPinned(ps[j])
  }

  lemma {:induction false} PinnedIsGood(p: LockedPackage)
    ensures IsPinned(p) <==> GoodDigest(p)
  {
    if StartsWith(p.digest, "sha256:") {
      assert p.digest == "sha256:" + p.digest[7..];
    } else if StartsWith(p.digest, "git:") {
      assert p.digest == "git:" + p.digest[4..];
    }
  }

  lemma {:induction false} NeighbourErrorIs(ps: seq<LockedPackage>, i: nat)
    ensures FirstClash(ps, i) ==> NeighbourError(ps) == Some(ClashError(ps[i], ps[i + 1]))
  {
    if FirstClash(ps, i) && i > 0 {
      assert !Clash(ps, 0);
      var qs := ps[1..];
      assert forall j :: 0 <= j < i - 1 ==> Clash(qs, j) == Clash(ps, j + 1);
      assert Clash(qs, i - 1) == Clash(ps, i);
      NeighbourErrorIs(qs, i - 1);
    }
  }

  lemma {:induction false} DigestErrorIs(ps: seq<LockedPackage>, i: nat)
    ensures FirstUnpinned(ps, i) ==> DigestError(ps) == Some(BadDigest(ps[i].name))
  {
    if FirstUnpinned(ps, i) {
      PinnedIsGood(ps[0]);
      if i > 0 {
        assert forall j :: 0 <= j < |ps| - 1 ==> ps[1..][j] == ps[j + 1];
        assert IsPinned(ps[0]);
        DigestErrorIs(ps[1..], i - 1);
      }
    }
  }

  /** What is reported: another version first; then the first neighbours out of order, or of one
      key; then the first entry without a known digest scheme. */
  lemma {:induction false} VerdictIs(version: nat, ps: seq<LockedPackage>, i: nat)
    ensures version != 1 ==> Verdict(version, ps) == Some(VersionMismatch(version))
    ensures version == 1 && FirstClash(ps, i) ==> Verdict(version, ps) == Some(ClashError(ps[i], ps[i + 1]))
    ensures version == 1 && NoClash(ps) && FirstUnpinned(ps, i) ==>
      Verdict(version, ps) == Some(BadDigest(ps[i].name))
    ensures version == 1 && NoClash(ps) && (forall p :: p in ps ==> IsPinned(p)) ==> Verdict(version, ps) == None
  {
    NeighbourErrorIs(ps, i);
    DigestErrorIs(ps, i);
    NeighbourErrorSpec(ps);
    DigestErrorSpec(ps);
    forall j | 0 <= j < |ps| ensures IsPinned(ps[j]) <==> GoodDigest(ps[j]) {
      PinnedIsGood(ps[j]);
    }
    assert forall j :: 0 <= j < |ps| ==> ps[j] in ps;
    assert forall j :: 0 <= j < |ps| - 1 ==>
        (Clash(ps, j) <==> Before(ps[j + 1].name, ps[j].name) || KeyOf(ps[j]) == KeyOf(ps[j + 1]));
  }

  predicate GoodChart(c: Chart) { StartsWith(c.sha256, "sha256:") || StartsWith(c.sha256, "git:") }

  ghost predicate GoodMap(ps: seq<LockedPackage>) {
    forall k :: Find(ps, k).Some? ==> GoodDigest(Find(ps, k).value)
  }

  lemma {:induction false} GoodMapIsAllDigests(ps: seq<LockedPackage>)
    requires Unique(ps)
    ensures GoodMap(ps) == AllDigests(ps)
  {
    if GoodMap(ps) {
      forall i | 0 <= i < |ps| ensures GoodDigest(ps[i]) { FindAt(ps, i); }
    }
  }

  /** A merged lock is accepted exactly when its version is current, the resolved digests
      are well formed, and so are those of the entries the merge leaves alone. */
  lemma {:induction false} MergedLockIsAccepted(version: nat, ps: seq<LockedPackage>, cs: seq<Chart>)
    requires Unique(ps) && DistinctNames(cs)
    ensures Verdict(version, Merged(ps, cs)).None? <==>
      && version == CURRENT_VERSION
      && (forall i :: 0 <= i < |cs| ==> GoodChart(cs[i]))
      && (forall i :: 0 <= i < |ps| && ChartFor(cs, KeyOf(ps[i])).None? ==> GoodDigest(ps[i]))
  {
    var qs := Merged(ps, cs);
    MergeOverrides(ps, cs);
    ValidateDecidesSortedLocks(version, qs);
    GoodMapIsAllDigests(qs);
    if GoodMap(qs) {
      forall i | 0 <= i < |cs| ensures GoodChart(cs[i]) { ChartLands(ps, cs, i); }
      forall i | 0 <= i < |ps| && ChartFor(cs, KeyOf(ps[i])).None? ensures GoodDigest(ps[i]) {
        FindAt(ps, i);
        assert Find(qs, KeyOf(ps[i])) == Some(ps[i]);
      }
    } else {
      var k :| Find(qs, k).Some? && !GoodDigest(Find(qs, k).value);
      if ChartFor(cs, k).None? {
        assert Find(ps, k) == Find(qs, k);
      } else {
        assert !GoodChart(ChartFor(cs, k).value);
      }
    }
  }

  /** Each resolved chart's entry is in the merged lock. */
  lemma {:induction false} ChartLands(ps: seq<LockedPackage>, cs: seq<Chart>, i: nat)
    requires Unique(ps) && DistinctNames(cs) && i < |cs|
    ensures Find(Merged(ps, cs), ChartKey(cs[i])) == Some(Entry(Find(ps, ChartKey(cs[i])), cs[i]))
  {
    MergeOverrides(ps, cs);
    var d := ChartFor(cs, ChartKey(cs[i]));
    var j :| 0 <= j < |cs| && cs[j] == d.value;
    assert cs[i].name == cs[j].name;
  }
}

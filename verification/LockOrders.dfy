/** Which collections of entries have an order that `validate` accepts. */
module LockOrders {
  import opened Text
  import opened Sorting
  import opened LockFile
  import opened LockProperties

  /** The entry has this name and, where one is given, this version. */
  predicate Has(p: LockedPackage, name: string, version: Option<string>) {
    p.name == name && (version == None || version == Some(p.version))
  }

  function Count(ps: seq<LockedPackage>, name: string, version: Option<string>): nat {
    if ps == [] then 0 else (if Has(ps[0], name, version) then 1 else 0) + Count(ps[1..], name, version)
  }

  /** No version makes up more than half of the entries of its name, rounded up. */
  predicate AtMostHalf(ps: seq<LockedPackage>) {
    forall p :: p in ps ==> 2 * Count(ps, p.name, Some(p.version)) <= Count(ps, p.name, None) + 1
  }

  ghost predicate HasAcceptedOrder(version: nat, ps: seq<LockedPackage>, repeats: bool) {
    exists qs :: multiset(qs) == multiset(ps) && Verdict(version, qs).None? && Unique(qs) == !repeats
  }

  function Without<T>(ps: seq<T>, i: nat): seq<T>
    requires i < |ps|
  {
    ps[..i] + ps[i + 1..]
  }

  // ----- counting -----

  lemma {:induction false} CountAppend(a: seq<LockedPackage>, b: seq<LockedPackage>, n: string, v: Option<string>)
    ensures Count(a + b, n, v) == Count(a, n, v) + Count(b, n, v)
  {
    if a == [] {
      assert a + b == b;
    } else {
      assert (a + b)[1..] == a[1..] + b;
      CountAppend(a[1..], b, n, v);
    }
  }

  lemma {:induction false} CountWithout(ps: seq<LockedPackage>, i: nat, n: string, v: Option<string>)
    requires i < |ps|
    ensures Count(ps, n, v) == Count(Without(ps, i), n, v) + (if Has(ps[i], n, v) then 1 else 0)
  {
    CountAppend(ps[..i], ps[i + 1..], n, v);
    CountAppend(ps[..i], ps[i..], n, v);
    assert ps == ps[..i] + ps[i..] && ps[i..][1..] == ps[i + 1..];
  }

  lemma {:induction false} ElementsWithout<T>(ps: seq<T>, i: nat)
    requires i < |ps|
    ensures multiset(ps) == multiset([ps[i]] + Without(ps, i))
  {
    assert ps == ps[..i] + [ps[i]] + ps[i + 1..];
  }

  lemma {:induction false} SameRest<T>(ps: seq<T>, qs: seq<T>) returns (i: nat)
    requires ps != [] && multiset(ps) == multiset(qs)
    ensures i < |qs| && qs[i] == ps[0] && multiset(ps[1..]) == multiset(Without(qs, i))
  {
    assert ps == [ps[0]] + ps[1..];
    assert ps[0] in multiset(qs);
    i :| 0 <= i < |qs| && qs[i] == ps[0];
    ElementsWithout(qs, i);
    assert multiset(ps[1..]) == multiset(ps) - multiset{ps[0]};
    assert multiset(Without(qs, i)) == multiset(qs) - multiset{ps[0]};
  }

  /** Counts do not depend on the order. */
  lemma {:induction false} CountSame(ps: seq<LockedPackage>, qs: seq<LockedPackage>, n: string, v: Option<string>)
    requires multiset(ps) == multiset(qs)
    ensures Count(ps, n, v) == Count(qs, n, v)
  {
    if ps == [] {
      assert |multiset(qs)| == 0;
    } else {
      var i := SameRest(ps, qs);
      CountSame(ps[1..], Without(qs, i), n, v);
      CountWithout(qs, i, n, v);
    }
  }

  lemma {:induction false} CountTwoVersions(ps: seq<LockedPackage>, n: string, v: string, w: string)
    requires v != w
    ensures Count(ps, n, Some(v)) + Count(ps, n, Some(w)) <= Count(ps, n, None)
  {
    if ps != [] { CountTwoVersions(ps[1..], n, v, w); }
  }

  lemma {:induction false} CountedIsThere(ps: seq<LockedPackage>, n: string, v: string) returns (i: nat)
    requires Count(ps, n, Some(v)) > 0
    ensures i < |ps| && KeyOf(ps[i]) == (n, v)
  {
    if Has(ps[0], n, Some(v)) {
      i := 0;
    } else {
      i := CountedIsThere(ps[1..], n, v);
      i := i + 1;
    }
  }

  lemma {:induction false} OtherIsThere(ps: seq<LockedPackage>, n: string, v: string) returns (i: nat)
    requires Count(ps, n, Some(v)) < Count(ps, n, None)
    ensures i < |ps| && ps[i].name == n && ps[i].version != v
  {
    if ps[0].name == n && ps[0].version != v {
      i := 0;
    } else {
      i := OtherIsThere(ps[1..], n, v);
      i := i + 1;
    }
  }

  // ----- an accepted order keeps to half -----

  lemma {:induction false} AcceptedKeepsToHalf(qs: seq<LockedPackage>, n: string, v: string)
    requires NeighbourError(qs).None?
    ensures 2 * Count(qs, n, Some(v)) <= Count(qs, n, None) + 1
    ensures qs == [] || Before(n, qs[0].name) ==> Count(qs, n, None) == 0
    ensures qs != [] && qs[0].name == n && qs[0].version != v ==> 2 * Count(qs, n, Some(v)) <= Count(qs, n, None)
  {
    if qs != [] {
      var rest := qs[1..];
      AcceptedKeepsToHalf(rest, n, v);
      CountTwoVersions(rest, n, v, v + "'");
      BeforeTotal(n, qs[0].name);
      if rest != [] {
        var p, q := qs[0].name, rest[0].name;
        BeforeTotal(p, q);
        if Before(n, p) && Before(p, q) { BeforeTransitive(n, p, q); }
      }
    }
  }

  // ----- and where all keep to half there is one -----

  /** Entries that can still be put behind `last`. */
  ghost predicate Room(ps: seq<LockedPackage>, last: Option<LockedPackage>) {
    && (forall n, v :: 2 * Count(ps, n, Some(v)) <= Count(ps, n, None) + 1)
    && (last.Some? ==>
          && 2 * Count(ps, last.value.name, Some(last.value.version)) <= Count(ps, last.value.name, None)
          && (forall p :: p in ps ==> !Before(p.name, last.value.name)))
  }

  predicate Follows(last: Option<LockedPackage>, p: LockedPackage) {
    last.Some? ==> !Before(p.name, last.value.name) && KeyOf(p) != KeyOf(last.value)
  }

  predicate IsLeast(ps: seq<LockedPackage>, i: nat)
    requires i < |ps|
  {
    forall p :: p in ps ==> !Before(p.name, ps[i].name)
  }

  lemma {:induction false} LeastName(ps: seq<LockedPackage>) returns (i: nat)
    requires ps != []
    ensures i < |ps| && IsLeast(ps, i)
  {
    i := 0;
    BeforeTotal(ps[0].name, ps[0].name);
    if |ps| > 1 {
      var rest := ps[1..];
      var j := LeastName(rest);
      if Before(rest[j].name, ps[0].name) { i := j + 1; }
      forall p | p in ps ensures !Before(p.name, ps[i].name) {
        BeforeTotal(rest[j].name, ps[0].name);
        BeforeTotal(p.name, ps[i].name);
        if p in rest { BeforeTotal(p.name, rest[j].name); }
        if Before(p.name, ps[0].name) && Before(ps[0].name, rest[j].name) {
          BeforeTransitive(p.name, ps[0].name, rest[j].name);
        }
      }
    }
  }

  /** This entry's version makes up half of the entries of its name. */
  predicate Presses(ps: seq<LockedPackage>, last: Option<LockedPackage>, n: string, p: LockedPackage) {
    p.name == n && Follows(last, p) && 2 * Count(ps, n, Some(p.version)) >= Count(ps, n, None)
  }

  /** Taking an entry leaves room, if it presses or nothing does. */
  lemma {:induction false} RoomIsLeft(ps: seq<LockedPackage>, last: Option<LockedPackage>, i: nat, n: string, v: string)
    requires Room(ps, last) && i < |ps| && IsLeast(ps, i)
    requires Presses(ps, last, ps[i].name, ps[i]) || forall p :: p in ps ==> !Presses(ps, last, ps[i].name, p)
    ensures 2 * Count(Without(ps, i), n, Some(v)) <= Count(Without(ps, i), n, None) + 1
    ensures KeyOf(ps[i]) == (n, v) ==> 2 * Count(Without(ps, i), n, Some(v)) <= Count(Without(ps, i), n, None)
  {
    CountWithout(ps, i, n, Some(v));
    CountWithout(ps, i, n, None);
    var w := ps[i].version;
    if n == ps[i].name && v != w && 2 * Count(ps, n, Some(v)) == Count(ps, n, None) + 1 {
      CountTwoVersions(ps, n, v, w);
      var j := CountedIsThere(ps, n, v);
      assert ps[j] in ps && Presses(ps, last, n, ps[j]);
    }
  }

  lemma {:induction false} Choose(ps: seq<LockedPackage>, last: Option<LockedPackage>) returns (i: nat)
    requires ps != [] && Room(ps, last)
    ensures i < |ps| && Follows(last, ps[i]) && Room(Without(ps, i), Some(ps[i]))
  {
    var j := LeastName(ps);
    var n := ps[j].name;
    CountWithout(ps, j, n, None);
    if p :| p in ps && Presses(ps, last, n, p) {
      i :| 0 <= i < |ps| && ps[i] == p;
    } else if last.Some? && last.value.name == n {
      i := OtherIsThere(ps, n, last.value.version);
    } else {
      i := j;
    }
    assert ps[i] in ps && ps[j] in ps;
    forall n', v ensures 2 * Count(Without(ps, i), n', Some(v)) <= Count(Without(ps, i), n', None) + 1 {
      RoomIsLeft(ps, last, i, n', v);
    }
    RoomIsLeft(ps, last, i, n, ps[i].version);
    forall p | p in Without(ps, i) ensures p in ps {}
  }

  lemma {:induction false} Arrange(ps: seq<LockedPackage>, last: Option<LockedPackage>) returns (qs: seq<LockedPackage>)
    requires Room(ps, last)
    ensures multiset(qs) == multiset(ps) && NeighbourError(qs).None? && (qs != [] ==> Follows(last, qs[0]))
    decreases |ps|
  {
    qs := [];
    if ps != [] {
      var i := Choose(ps, last);
      var rest := Arrange(Without(ps, i), Some(ps[i]));
      qs := [ps[i]] + rest;
      ElementsWithout(ps, i);
      assert qs[1..] == rest;
    }
  }

  /** An accepted order exists if and only if the version and the digests are right and no
      version makes up more than half of the entries of its name. In such an order a key
      repeats if and only if one repeats in the collection. */
  lemma {:induction false} AcceptedOrderExactly(version: nat, ps: seq<LockedPackage>, repeats: bool)
    ensures HasAcceptedOrder(version, ps, repeats) <==>
      version == CURRENT_VERSION && AllDigests(ps) && AtMostHalf(ps) && Unique(ps) == !repeats
  {
    if qs :| multiset(qs) == multiset(ps) && Verdict(version, qs).None? && Unique(qs) == !repeats {
      SameVerdictParts(ps, qs);
      forall p | p in ps ensures 2 * Count(ps, p.name, Some(p.version)) <= Count(ps, p.name, None) + 1 {
        CountSame(ps, qs, p.name, Some(p.version));
        CountSame(ps, qs, p.name, None);
        AcceptedKeepsToHalf(qs, p.name, p.version);
      }
    }
    if version == CURRENT_VERSION && AllDigests(ps) && AtMostHalf(ps) && Unique(ps) == !repeats {
      forall n, v ensures 2 * Count(ps, n, Some(v)) <= Count(ps, n, None) + 1 {
        if Count(ps, n, Some(v)) > 0 {
          var i := CountedIsThere(ps, n, v);
          assert ps[i] in ps;
        }
      }
      var qs := Arrange(ps, None);
      SameVerdictParts(ps, qs);
      assert Verdict(version, qs).None?;
    }
  }

  lemma {:induction false} SameVerdictParts(ps: seq<LockedPackage>, qs: seq<LockedPackage>)
    requires multiset(qs) == multiset(ps)
    ensures Unique(ps) == Unique(qs) && AllDigests(ps) == AllDigests(qs)
    ensures AllDigests(qs) == DigestError(qs).None?
  {
    DigestErrorSpec(qs);
    if Unique(ps) { SameElementsUnique(ps, qs); }
    if Unique(qs) { SameElementsUnique(qs, ps); }
    if AllDigests(ps) { SameDigests(ps, qs); }
    if AllDigests(qs) { SameDigests(qs, ps); }
  }

  lemma {:induction false} SameDigests(ps: seq<LockedPackage>, qs: seq<LockedPackage>)
    requires multiset(qs) == multiset(ps) && AllDigests(ps)
    ensures AllDigests(qs)
  {
    forall i | 0 <= i < |qs| ensures GoodDigest(qs[i]) {
      assert qs[i] in multiset(ps);
    }
  }
}

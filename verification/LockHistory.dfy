/** Histories of a lock: merges, and the verbs that record metadata about an entry's bytes.
    Nothing recorded against one digest is ever found beside another. */
module LockHistory {
  import opened Text
  import opened Sorting
  import opened LockFile
  import opened LockProperties

  /** One piece of metadata that vouches for particular bytes. */
  datatype Field =
    | VendorDigest(tree: string)
    | Signature(identity: string)
    | Dependencies(edges: seq<string>)
    | Attestation(attested: string)
    | Yanked(flag: bool)
    | KyvernoSource(kyverno: string)
    | Converter(converter: string)

  /** `field` was recorded for `key` while its entry carried `digest`. */
  datatype Fact = Fact(key: Key, field: Field, digest: string)

  function Optional<T, U>(o: Option<T>, f: T -> U): set<U> {
    match o case Some(v) => {f(v)} case None => {}
  }

  function Fields(p: LockedPackage): set<Field> {
    Optional(p.vendorDigest, v => VendorDigest(v))
    + Optional(p.signature, v => Signature(v))
    + (if p.dependencies == [] then {} else {Dependencies(p.dependencies)})
    + Optional(p.attestation, v => Attestation(v))
    + Optional(p.yanked, v => Yanked(v))
    + Optional(p.kyvernoSourceDigest, v => KyvernoSource(v))
    + Optional(p.converterVersion, v => Converter(v))
  }

  function WithField(p: LockedPackage, f: Field): LockedPackage {
    match f
    case VendorDigest(v) => p.(vendorDigest := Some(v))
    case Signature(v) => p.(signature := Some(v))
    case Dependencies(v) => p.(dependencies := v)
    case Attestation(v) => p.(attestation := Some(v))
    case Yanked(v) => p.(yanked := Some(v))
    case KyvernoSource(v) => p.(kyvernoSourceDigest := Some(v))
    case Converter(v) => p.(converterVersion := Some(v))
  }

  /** What a verb may do to the lock of a workspace. */
  datatype Event =
    | Merge(resolved: seq<Chart>)
    | Upsert(chart: Chart)
    | Record(slot: nat, field: Field)
    | Remove(name: string)

  datatype History = History(packages: seq<LockedPackage>, facts: set<Fact>)

  /** The entries that do not bear the name. */
  function Retained(ps: seq<LockedPackage>, name: string): seq<LockedPackage> {
    if ps == [] then [] else (if ps[0].name != name then [ps[0]] else []) + Retained(ps[1..], name)
  }

  /** Removing a package forgets what was recorded about it along with its entries. */
  function Happen(h: History, e: Event): History {
    match e
    case Merge(cs) => History(Merged(h.packages, cs), h.facts)
    case Upsert(c) => History(Upserted(h.packages, c), h.facts)
    case Record(i, f) =>
      if i < |h.packages| then
        var p := h.packages[i];
        History(h.packages[i := WithField(p, f)], h.facts + {Fact(KeyOf(p), f, p.digest)})
      else h
    case Remove(name) => History(Retained(h.packages, name), set f | f in h.facts && f.key.0 != name)
  }

  function Run(h: History, es: seq<Event>): History {
    if es == [] then h else Happen(Run(h, es[..|es| - 1]), es[|es| - 1])
  }

  /** Whatever an entry says about its bytes was recorded against the digest it carries. */
  ghost predicate Vouched(p: LockedPackage, facts: set<Fact>) {
    forall f :: f in Fields(p) ==> Fact(KeyOf(p), f, p.digest) in facts
  }

  ghost predicate Honest(h: History) {
    forall i :: 0 <= i < |h.packages| ==> Vouched(h.packages[i], h.facts)
  }

  /** Metadata survives an upsert exactly when the digest does. */
  lemma {:induction false} FieldsOfEntry(prior: Option<LockedPackage>, c: Chart)
    ensures Fields(Entry(prior, c)) == if prior.Some? && prior.value.digest == c.sha256 then Fields(prior.value) else {}
  {
  }

  lemma {:induction false} FieldsOfRecord(p: LockedPackage, f: Field)
    ensures Fields(WithField(p, f)) <= Fields(p) + {f}
    ensures KeyOf(WithField(p, f)) == KeyOf(p) && WithField(p, f).digest == p.digest
  {
  }

  lemma {:induction false} UpsertHonest(h: History, c: Chart)
    requires Honest(h)
    ensures Honest(History(Upserted(h.packages, c), h.facts))
  {
    var prior := Find(h.packages, ChartKey(c));
    var e := Entry(prior, c);
    FieldsOfEntry(prior, c);
    assert KeyOf(e) == ChartKey(c) && e.digest == c.sha256;
    assert Vouched(e, h.facts);
    var qs := Upserted(h.packages, c);
    forall i | 0 <= i < |qs| ensures Vouched(qs[i], h.facts) {
      assert qs[i] == e || (i < |h.packages| && qs[i] == h.packages[i]);
    }
  }

  lemma {:induction false} UpsertAllHonest(h: History, cs: seq<Chart>)
    requires Honest(h)
    ensures Honest(History(UpsertedAll(h.packages, cs), h.facts))
    decreases |cs|
  {
    if cs != [] {
      UpsertHonest(h, cs[0]);
      UpsertAllHonest(History(Upserted(h.packages, cs[0]), h.facts), cs[1..]);
    }
  }

  lemma {:induction false} MergeHonest(h: History, cs: seq<Chart>)
    requires Honest(h)
    ensures Honest(History(Merged(h.packages, cs), h.facts))
  {
    UpsertAllHonest(h, cs);
    OrderOfPackages();
    var ps, qs := UpsertedAll(h.packages, cs), Merged(h.packages, cs);
    SortSpec(PackageBefore, ps);
    forall i | 0 <= i < |qs| ensures Vouched(qs[i], h.facts) {
      assert qs[i] in multiset(ps);
      var j :| 0 <= j < |ps| && ps[j] == qs[i];
    }
  }

  lemma {:induction false} RecordHonest(h: History, i: nat, f: Field)
    requires Honest(h)
    ensures Honest(Happen(h, Record(i, f)))
  {
    if i < |h.packages| {
      FieldsOfRecord(h.packages[i], f);
      var after := Happen(h, Record(i, f));
      forall j | 0 <= j < |after.packages| ensures Vouched(after.packages[j], after.facts) {
        assert Vouched(h.packages[j], h.facts);
      }
    }
  }

  lemma {:induction false} RetainedAre(ps: seq<LockedPackage>, name: string)
    ensures forall p :: p in Retained(ps, name) <==> p in ps && p.name != name
  {
    if ps != [] {
      RetainedAre(ps[1..], name);
    }
  }

  lemma {:induction false} RemoveHonest(h: History, name: string)
    requires Honest(h)
    ensures Honest(Happen(h, Remove(name)))
  {
    RetainedAre(h.packages, name);
    var after := Happen(h, Remove(name));
    forall i | 0 <= i < |after.packages| ensures Vouched(after.packages[i], after.facts) {
      var j :| 0 <= j < |h.packages| && h.packages[j] == after.packages[i];
      assert Vouched(h.packages[j], h.facts);
    }
  }

  /** Over every history: no signature, attestation, vendor digest, dependency list, yanked
      or Kyverno field stands beside a digest it was not recorded against. */
  lemma {:induction false} EveryHistoryIsHonest(h: History, es: seq<Event>)
    requires Honest(h)
    ensures Honest(Run(h, es))
    decreases |es|
  {
    if es != [] {
      var before := Run(h, es[..|es| - 1]);
      EveryHistoryIsHonest(h, es[..|es| - 1]);
      match es[|es| - 1]
      case Merge(cs) => MergeHonest(before, cs);
      case Upsert(c) => UpsertHonest(before, c);
      case Record(i, f) => RecordHonest(before, i, f);
      case Remove(name) => RemoveHonest(before, name);
    }
  }

  /** Event `n` recorded the fact, on an entry with its key and its digest. */
  ghost predicate RecordedBy(es: seq<Event>, n: nat, fact: Fact) {
    n < |es| && es[n].Record? && es[n].field == fact.field &&
    var before := Run(History([], {}), es[..n]).packages;
    es[n].slot < |before| && KeyOf(before[es[n].slot]) == fact.key && before[es[n].slot].digest == fact.digest
  }

  /** No event after `n` removed the package. */
  predicate KeptSince(es: seq<Event>, n: nat, name: string) {
    forall k :: n < k < |es| ==> es[k] != Remove(name)
  }

  /** From an empty lock: behind every field of every entry stands an event that recorded
      it for that package while it carried the digest it carries now, and since which the
      package has not been removed. */
  lemma {:induction false} NothingSurvivesADigestChange(es: seq<Event>, i: nat, f: Field)
    requires i < |Run(History([], {}), es).packages|
    requires f in Fields(Run(History([], {}), es).packages[i])
    ensures var p := Run(History([], {}), es).packages[i];
      exists n: nat :: RecordedBy(es, n, Fact(KeyOf(p), f, p.digest)) && KeptSince(es, n, p.name)
  {
    var p := Run(History([], {}), es).packages[i];
    var fact := Fact(KeyOf(p), f, p.digest);
    EveryHistoryIsHonest(History([], {}), es);
    assert Vouched(p, Run(History([], {}), es).facts);
    FactsHaveEvents(es, fact);
  }

  lemma {:induction false} RecordedByLonger(es: seq<Event>, last: nat, n: nat, fact: Fact)
    requires last <= |es| && RecordedBy(es[..last], n, fact)
    ensures RecordedBy(es, n, fact)
  {
    assert es[..last][..n] == es[..n];
  }

  /** A fact that is there was there before and its package is not removed, or is recorded
      just now. */
  lemma {:induction false} LastEvent(h: History, e: Event, fact: Fact)
    requires fact in Happen(h, e).facts
    ensures fact in h.facts ==> e != Remove(fact.key.0)
    ensures fact !in h.facts ==>
      && e.Record? && e.field == fact.field && e.slot < |h.packages|
      && KeyOf(h.packages[e.slot]) == fact.key && h.packages[e.slot].digest == fact.digest
  {
  }

  lemma {:induction false} FactsHaveEvents(es: seq<Event>, fact: Fact)
    requires fact in Run(History([], {}), es).facts
    ensures exists n: nat :: RecordedBy(es, n, fact) && KeptSince(es, n, fact.key.0)
  {
    if es != [] {
      var last := |es| - 1;
      LastEvent(Run(History([], {}), es[..last]), es[last], fact);
      if fact in Run(History([], {}), es[..last]).facts {
        FactsHaveEvents(es[..last], fact);
        var n: nat :| RecordedBy(es[..last], n, fact) && KeptSince(es[..last], n, fact.key.0);
        RecordedByLonger(es, last, n, fact);
        KeptLonger(es, last, n, fact.key.0);
      } else {
        assert RecordedBy(es, last, fact) && KeptSince(es, last, fact.key.0);
      }
    }
  }

  lemma {:induction false} KeptLonger(es: seq<Event>, last: nat, n: nat, name: string)
    requires last == |es| - 1 && KeptSince(es[..last], n, name) && es[last] != Remove(name)
    ensures KeptSince(es, n, name)
  {
    assert forall k :: n < k < last ==> es[k] == es[..last][k];
  }

  // ----- and nothing is lost while the digest stays -----

  /** What counts as a field of an entry, field by field. */
  lemma {:induction false} FieldsAre(p: LockedPackage, text: string, edges: seq<string>)
    ensures VendorDigest(text) in Fields(p) <==> p.vendorDigest == Some(text)
    ensures Signature(text) in Fields(p) <==> p.signature == Some(text)
    ensures Dependencies(edges) in Fields(p) <==> p.dependencies == edges && edges != []
    ensures Attestation(text) in Fields(p) <==> p.attestation == Some(text)
  {
  }

  lemma {:induction false} FurtherFieldsAre(p: LockedPackage, text: string, flag: bool)
    ensures Yanked(flag) in Fields(p) <==> p.yanked == Some(flag)
    ensures KyvernoSource(text) in Fields(p) <==> p.kyvernoSourceDigest == Some(text)
    ensures Converter(text) in Fields(p) <==> p.converterVersion == Some(text)
  {
  }

  /** A merge keeps the fields of every entry it leaves alone or finds at the digest it had. */
  lemma {:induction false} MergeKeepsFields(h: History, es: seq<Event>, cs: seq<Chart>, i: nat, f: Field)
      returns (j: nat)
    requires Unique(Run(h, es).packages) && DistinctNames(cs)
    requires i < |Run(h, es).packages| && f in Fields(Run(h, es).packages[i])
    requires
      var p := Run(h, es).packages[i];
      ChartFor(cs, KeyOf(p)).Some? ==> ChartFor(cs, KeyOf(p)).value.sha256 == p.digest
    ensures
      var p, after := Run(h, es).packages[i], Run(h, es + [Merge(cs)]).packages;
      j < |after| && KeyOf(after[j]) == KeyOf(p) && after[j].digest == p.digest && f in Fields(after[j])
  {
    var ps := Run(h, es).packages;
    var key := KeyOf(ps[i]);
    assert (es + [Merge(cs)])[..|es|] == es;
    MergeOverrides(ps, cs);
    FindAt(ps, i);
    if ChartFor(cs, key).Some? {
      FieldsOfEntry(Some(ps[i]), ChartFor(cs, key).value);
    }
    j := SlotOf(Merged(ps, cs), key).value;
  }
}

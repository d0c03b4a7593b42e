/** The regions a decorator scan consumes, over what it looks at in each line: whether
    the line opens a decorator, and the line's net paren count. */
module Regions {

  datatype Mark = Mark(opens: bool, weight: int)

  /** Lines `[start, end)`. */
  datatype Region = Region(start: nat, end: nat)

  function Sum(ms: seq<Mark>, a: nat, b: nat): int
    requires a <= b <= |ms|
    decreases b - a
  {
    if a == b then 0 else ms[a].weight + Sum(ms, a + 1, b)
  }

  /** The shortest run of lines from an opening one whose weights sum to at most zero, or
      all the lines there are. */
  ghost predicate IsRegion(ms: seq<Mark>, r: Region) {
    && r.start < r.end <= |ms|
    && ms[r.start].opens
    && (forall j :: r.start < j < r.end ==> Sum(ms, r.start, j) > 0)
    && (r.end == |ms| || Sum(ms, r.start, r.end) <= 0)
  }

  predicate Covered(rs: seq<Region>, i: nat) {
    exists r :: r in rs && r.start <= i < r.end
  }

  /** From line `at` on: regions in order, disjoint, and every opening line is inside one. */
  ghost predicate IsPartition(ms: seq<Mark>, rs: seq<Region>, at: nat) {
    && (forall r :: r in rs ==> IsRegion(ms, r) && at <= r.start)
    && (forall i, j :: 0 <= i < j < |rs| ==> rs[i].end <= rs[j].start)
    && (forall i :: at <= i < |ms| && ms[i].opens ==> Covered(rs, i))
  }

  /** End of the region being consumed, with `depth` parens open before line `at`. */
  function RegionEnd(ms: seq<Mark>, at: nat, depth: int): (end: nat)
    requires at < |ms|
    ensures at < end <= |ms|
    decreases |ms| - at
  {
    var d := depth + ms[at].weight;
    if d <= 0 || at + 1 == |ms| then at + 1 else RegionEnd(ms, at + 1, d)
  }

  function From(ms: seq<Mark>, at: nat): seq<Region>
    requires at <= |ms|
    decreases |ms| - at
  {
    if at == |ms| then []
    else if !ms[at].opens then From(ms, at + 1)
    else [Region(at, RegionEnd(ms, at, 0))] + From(ms, RegionEnd(ms, at, 0))
  }

  lemma {:induction false} RegionEndIsShortest(ms: seq<Mark>, at: nat, depth: int)
    requires at < |ms|
    ensures forall j :: at < j < RegionEnd(ms, at, depth) ==> depth + Sum(ms, at, j) > 0
    ensures var e := RegionEnd(ms, at, depth); e == |ms| || depth + Sum(ms, at, e) <= 0
    decreases |ms| - at
  {
    var d := depth + ms[at].weight;
    assert Sum(ms, at + 1, at + 1) == 0;
    if d > 0 && at + 1 < |ms| {
      RegionEndIsShortest(ms, at + 1, d);
    }
  }

  lemma {:induction false} CoveredCons(r: Region, rest: seq<Region>, i: nat)
    ensures Covered([r] + rest, i) == (r.start <= i < r.end || Covered(rest, i))
  {
    assert r in [r] + rest;
    assert forall q :: q in rest ==> q in [r] + rest;
    assert forall q :: q in [r] + rest ==> q == r || q in rest;
  }

  lemma {:induction false} ConsPartition(ms: seq<Mark>, rest: seq<Region>, at: nat, end: nat)
    requires at < end <= |ms| && IsRegion(ms, Region(at, end)) && IsPartition(ms, rest, end)
    ensures IsPartition(ms, [Region(at, end)] + rest, at)
  {
    var rs := [Region(at, end)] + rest;
    forall i | at <= i < |ms| && ms[i].opens ensures Covered(rs, i) {
      CoveredCons(Region(at, end), rest, i);
    }
    forall i, j | 0 <= i < j < |rs| ensures rs[i].end <= rs[j].start {
      assert rs[j] == rest[j - 1] && rest[j - 1] in rest;
    }
  }

  /** The scan produces a partition. */
  lemma {:induction false} FromIsPartition(ms: seq<Mark>, at: nat)
    requires at <= |ms|
    ensures IsPartition(ms, From(ms, at), at)
    decreases |ms| - at
  {
    if at < |ms| {
      if !ms[at].opens {
        FromIsPartition(ms, at + 1);
      } else {
        var e := RegionEnd(ms, at, 0);
        RegionEndIsShortest(ms, at, 0);
        FromIsPartition(ms, e);
        ConsPartition(ms, From(ms, e), at, e);
      }
    }
  }

  /** A line that opens nothing, and that no region before has swallowed, is in none. */
  lemma {:induction false} ClosedLineIsSkipped(ms: seq<Mark>, at: nat)
    requires at < |ms| && !ms[at].opens
    ensures From(ms, at) == From(ms, at + 1) && !Covered(From(ms, at), at)
  {
    FromIsPartition(ms, at + 1);
  }

  lemma {:induction false} SkipFirst(rs: seq<Region>, i: nat)
    requires rs != [] && Covered(rs, i) && i >= rs[0].end
    ensures Covered(rs[1..], i)
  {
    var r :| r in rs && r.start <= i < r.end;
    assert r in rs[1..];
  }

  lemma {:induction false} RestIsPartition(ms: seq<Mark>, rs: seq<Region>, at: nat)
    requires rs != [] && IsPartition(ms, rs, at)
    ensures IsPartition(ms, rs[1..], rs[0].end)
    ensures at <= rs[0].start
    ensures forall i :: at <= i < |ms| && ms[i].opens ==> rs[0].start <= i
  {
    assert rs[0] in rs;
    forall r | r in rs[1..] ensures r in rs && rs[0].end <= r.start {
      var k :| 0 <= k < |rs[1..]| && rs[1..][k] == r;
      assert rs[k + 1] == r;
    }
    forall i | rs[0].end <= i < |ms| && ms[i].opens ensures Covered(rs[1..], i) {
      SkipFirst(rs, i);
    }
    forall i | at <= i < |ms| && ms[i].opens ensures rs[0].start <= i {
      var r :| r in rs && r.start <= i < r.end;
      assert r == rs[0] || r in rs[1..];
    }
  }

  lemma {:induction false} SameEnd(ms: seq<Mark>, r: Region, q: Region)
    requires IsRegion(ms, r) && IsRegion(ms, q) && r.start == q.start
    ensures r.end == q.end
  {
  }

  /** A text has only one partition, so `IsPartition` fixes what the scan blanks. */
  lemma {:induction false} PartitionIsUnique(ms: seq<Mark>, rs: seq<Region>, qs: seq<Region>, at: nat)
    requires IsPartition(ms, rs, at) && IsPartition(ms, qs, at)
    ensures rs == qs
    decreases |rs|
  {
    if rs != [] && qs != [] {
      assert rs[0] in rs && qs[0] in qs;
      RestIsPartition(ms, rs, at);
      RestIsPartition(ms, qs, at);
      SameEnd(ms, rs[0], qs[0]);
      PartitionIsUnique(ms, rs[1..], qs[1..], rs[0].end);
    } else if rs != [] {
      OpensFirst(ms, rs, at);
    } else if qs != [] {
      OpensFirst(ms, qs, at);
    }
  }

  lemma {:induction false} OpensFirst(ms: seq<Mark>, rs: seq<Region>, at: nat)
    requires rs != [] && IsPartition(ms, rs, at)
    ensures at <= rs[0].start < |ms| && ms[rs[0].start].opens
  {
    assert rs[0] in rs;
  }

  lemma {:induction false} NothingOpens(ms: seq<Mark>, at: nat)
    requires at <= |ms| && forall i :: at <= i < |ms| ==> !ms[i].opens
    ensures From(ms, at) == []
    decreases |ms| - at
  {
    if at < |ms| { NothingOpens(ms, at + 1); }
  }
}

/** Which trees share their digest's stream with another tree: every tree of two files or
    more does, and one with a single file does exactly when its content can be split. */
module DirHashCollisions {
  import opened Text
  import opened Sorting
  import opened DirHash
  import opened DirHashProperties

  /** Files are found under names a file system allows. */
  ghost predicate Real(entries: seq<Entry>) {
    WellFormed(Dir(entries)) && forall f :: f in Listing(entries) ==> RealRel(f.rel)
  }

  /** No tree with other files has the stream of this one. */
  ghost predicate AloneWithItsStream(a: seq<Entry>) {
    forall b :: Real(b) && Stream(Listing(b)) == Stream(Listing(a)) ==> SameFiles(Dir(a), Dir(b))
  }

  /** Neither path leads through the other. */
  predicate Apart(p: seq<string>, q: seq<string>) { !(p <= q) && !(q <= p) }

  /** The content falls apart into one for the file itself and one for a file at `q`. */
  predicate SplitAt(f: Found, x: string, q: seq<string>, y: string) {
    f.content == x + "\n" + Join(q) + "\0" + y && RealRel(q) && PathBefore(f.rel, q) && Apart(f.rel, q)
  }

  ghost predicate Splits(f: Found) { exists x, q, y :: SplitAt(f, x, q, y) }

  /** The names between the slashes. */
  function NamesIn(path: string): (names: seq<string>)
    ensures Join(names) == path
    decreases |path|
  {
    var i := IndexOf(path, '/');
    if i == |path| then [path] else [path[..i]] + NamesIn(path[i + 1..])
  }

  lemma {:induction false} NamesInJoin(q: seq<string>)
    requires RealRel(q)
    ensures NamesIn(Join(q)) == q
  {
    JoinOfReal(q);
    if |q| > 1 { NamesInJoin(q[1..]); }
  }

  /** What stands between a newline and a NUL names a file that could come behind this one. */
  predicate NamesFile(f: Found, i: nat, j: nat)
    requires i < j <= |f.content|
  {
    var q := NamesIn(f.content[i + 1..j]);
    RealRel(q) && PathBefore(f.rel, q) && Apart(f.rel, q)
  }

  /** A search through the content decides whether it splits. */
  predicate CanSplit(f: Found) {
    exists i, j :: 0 <= i < j < |f.content| && f.content[i] == '\n' && f.content[j] == '\0' && NamesFile(f, i, j)
  }

  lemma {:induction false} CutAround(x: string, m: string, y: string, c: string)
    requires c == x + "\n" + m + "\0" + y
    ensures |x| + 1 + |m| < |c| && c[|x|] == '\n' && c[|x| + 1 + |m|] == '\0'
    ensures c[|x| + 1..|x| + 1 + |m|] == m
  {
  }

  lemma {:induction false} CutAt(c: string, i: nat, j: nat)
    requires i < j < |c| && c[i] == '\n' && c[j] == '\0'
    ensures c == c[..i] + "\n" + c[i + 1..j] + "\0" + c[j + 1..]
  {
  }

  lemma {:induction false} SplitIsFound(f: Found, x: string, q: seq<string>, y: string)
    requires SplitAt(f, x, q, y)
    ensures CanSplit(f)
  {
    var m := Join(q);
    NamesInJoin(q);
    CutAround(x, m, y, f.content);
    assert NamesFile(f, |x|, |x| + 1 + |m|);
  }

  lemma {:induction false} CanSplitExactly(f: Found)
    ensures CanSplit(f) <==> Splits(f)
  {
    var c := f.content;
    if x, q, y :| SplitAt(f, x, q, y) {
      SplitIsFound(f, x, q, y);
    }
    if i, j :| 0 <= i < j < |c| && c[i] == '\n' && c[j] == '\0' && NamesFile(f, i, j) {
      CutAt(c, i, j);
      assert SplitAt(f, c[..i], NamesIn(c[i + 1..j]), c[j + 1..]);
    }
  }

  /** Two files run together into one. */
  function Fused(f: Found, g: Found): Found { Found(f.rel, f.content + "\n" + Join(g.rel) + "\0" + g.content) }

  lemma {:induction false} FusedStream(f: Found, g: Found, rest: seq<Found>)
    ensures Stream([Fused(f, g)] + rest) == Stream([f, g] + rest)
  {
    assert ([Fused(f, g)] + rest)[1..] == rest;
    assert ([f, g] + rest)[1..] == [g] + rest && ([g] + rest)[1..] == rest;
    assert Record(Fused(f, g)) == Record(f) + Record(g);
  }

  // ----- the listing of a tree is determined by its files -----

  lemma {:induction false} ListingIs(entries: seq<Entry>, fs: seq<Found>)
    requires WellFormed(Dir(entries)) && NoRepeats(fs) && Sorted(FoundBefore, fs)
    requires forall f :: f in fs <==> FileAt(Dir(entries), f.rel) == Some(f.content)
    ensures Listing(entries) == fs
  {
    CollectAllFinds(Dir(entries), entries, []);
    forall f ensures f in CollectAll(entries, []) <==> f in fs {
      FileOfRoot(Dir(entries), f);
    }
    SameMembersSameSorted(CollectAll(entries, []), fs);
    SortOfSorted(FoundBefore, fs);
  }

  lemma {:induction false} ListingIsSorted(entries: seq<Entry>)
    requires WellFormed(Dir(entries))
    ensures Sorted(FoundBefore, Listing(entries)) && NoRepeats(Listing(entries))
  {
    CollectAllFinds(Dir(entries), entries, []);
    OrderOfFound();
    SortSpec(FoundBefore, CollectAll(entries, []));
    SortedIsDistinct(CollectAll(entries, []));
    NoRepeatsIsDistinct(Listing(entries));
  }

  // ----- putting something else in a file's place -----

  function Put(node: Node, path: seq<string>, new': Node): Node
    requires FileAt(node, path).Some?
    decreases |path|, 1, 0
  {
    if path == [] then new' else Dir(PutIn(node.entries, path, new'))
  }

  function PutIn(entries: seq<Entry>, path: seq<string>, new': Node): (out: seq<Entry>)
    requires path != [] && FileAt(Dir(entries), path).Some?
    ensures |out| == |entries| && forall i :: 0 <= i < |out| ==> out[i].name == entries[i].name
    decreases |path|, 0, |entries|
  {
    if entries[0].name == path[0] then [Entry(path[0], Put(entries[0].node, path[1..], new'))] + entries[1..]
    else [entries[0]] + PutIn(entries[1..], path, new')
  }

  /** A file, or an empty directory. */
  predicate Replacement(n: Node) { n.File? || n == Dir([]) }

  function ContentOf(n: Node): Option<string> { if n.File? then Some(n.content) else None }

  lemma {:induction false} PutFiles(node: Node, path: seq<string>, n: Node, q: seq<string>)
    requires FileAt(node, path).Some? && Replacement(n)
    ensures FileAt(Put(node, path, n), q) == if q == path then ContentOf(n) else FileAt(node, q)
    decreases |path|, 1, 0
  {
    if path != [] {
      PutInFiles(node.entries, path, n, q);
    }
  }

  lemma {:induction false} PutInFiles(entries: seq<Entry>, path: seq<string>, n: Node, q: seq<string>)
    requires path != [] && FileAt(Dir(entries), path).Some? && Replacement(n)
    ensures FileAt(Dir(PutIn(entries, path, n)), q) == if q == path then ContentOf(n) else FileAt(Dir(entries), q)
    decreases |path|, 0, |entries|
  {
    var out := PutIn(entries, path, n);
    if entries[0].name == path[0] {
      if q != [] && q[0] == path[0] {
        PutFiles(entries[0].node, path[1..], n, q[1..]);
        assert q == path <==> q[1..] == path[1..] by {
          assert q == [q[0]] + q[1..] && path == [path[0]] + path[1..];
        }
      }
      assert out[1..] == entries[1..];
    } else {
      PutInFiles(entries[1..], path, n, q);
      assert out[1..] == PutIn(entries[1..], path, n);
    }
  }

  lemma {:induction false} PutWellFormed(node: Node, path: seq<string>, n: Node)
    requires FileAt(node, path).Some? && Replacement(n) && WellFormed(node)
    ensures WellFormed(Put(node, path, n))
    decreases |path|, 1, 0
  {
    if path != [] {
      PutInWellFormed(node.entries, path, n);
    }
  }

  lemma {:induction false} PutInWellFormed(entries: seq<Entry>, path: seq<string>, n: Node)
    requires path != [] && FileAt(Dir(entries), path).Some? && Replacement(n) && WellFormed(Dir(entries))
    ensures forall i :: 0 <= i < |entries| ==> WellFormed(PutIn(entries, path, n)[i].node)
    decreases |path|, 0, |entries|
  {
    var out := PutIn(entries, path, n);
    if entries[0].name == path[0] {
      PutWellFormed(entries[0].node, path[1..], n);
    } else {
      assert forall i :: 0 <= i < |entries[1..]| ==> entries[1..][i] == entries[i + 1];
      PutInWellFormed(entries[1..], path, n);
      assert forall i :: 1 <= i < |out| ==> out[i] == PutIn(entries[1..], path, n)[i - 1];
    }
  }

  // ----- the twin of a tree with two files -----

  /** The first two files run together in the place of the first; an empty directory in the
      place of the second. */
  function Twin(a: seq<Entry>, f: Found, g: Found): seq<Entry>
    requires FileAt(Dir(a), f.rel).Some? && FileAt(Dir(a), g.rel).Some? && f.rel != g.rel
  {
    PutFiles(Dir(a), g.rel, Dir([]), f.rel);
    Put(Put(Dir(a), g.rel, Dir([])), f.rel, File(Fused(f, g).content)).entries
  }

  lemma {:induction false} TwinFiles(a: seq<Entry>, f: Found, g: Found, q: seq<string>)
    requires FileAt(Dir(a), f.rel).Some? && FileAt(Dir(a), g.rel).Some? && f.rel != g.rel
    ensures FileAt(Dir(Twin(a, f, g)), q) ==
      if q == f.rel then Some(Fused(f, g).content) else if q == g.rel then None else FileAt(Dir(a), q)
  {
    PutFiles(Dir(a), g.rel, Dir([]), f.rel);
    PutFiles(Dir(a), g.rel, Dir([]), q);
    PutFiles(Put(Dir(a), g.rel, Dir([])), f.rel, File(Fused(f, g).content), q);
  }

  /** Every tree of two files or more has a twin: other files, the same stream. */
  lemma {:induction false} UncleanContentCollides(a: seq<Entry>) returns (f: Found, g: Found, b: seq<Entry>)
    requires Real(a) && |Listing(a)| >= 2
    ensures f == Listing(a)[0] && g == Listing(a)[1]
    ensures FileAt(Dir(a), f.rel).Some? && FileAt(Dir(a), g.rel).Some? && f.rel != g.rel && b == Twin(a, f, g)
    ensures Real(b) && Stream(Listing(b)) == Stream(Listing(a)) && !SameFiles(Dir(a), Dir(b))
  {
    var fs := Listing(a);
    f, g := fs[0], fs[1];
    var rest := fs[2..];
    ListingIsSorted(a);
    assert f in fs && g in fs;
    ListingHolds(a, f);
    ListingHolds(a, g);
    b := Twin(a, f, g);
    PutFiles(Dir(a), g.rel, Dir([]), f.rel);
    PutWellFormed(Dir(a), g.rel, Dir([]));
    PutWellFormed(Put(Dir(a), g.rel, Dir([])), f.rel, File(Fused(f, g).content));
    TwinListing(a, b, f, g, rest);
    assert fs == [f, g] + rest;
    FusedStream(f, g, rest);
    TwinFiles(a, f, g, g.rel);
  }

  lemma {:induction false} TwinListing(a: seq<Entry>, b: seq<Entry>, f: Found, g: Found, rest: seq<Found>)
    requires Real(a) && Listing(a) == [f, g] + rest && WellFormed(Dir(b))
    requires FileAt(Dir(a), f.rel).Some? && FileAt(Dir(a), g.rel).Some? && f.rel != g.rel && b == Twin(a, f, g)
    ensures Listing(b) == [Fused(f, g)] + rest && Real(b)
  {
    var fs, gs := Listing(a), [Fused(f, g)] + rest;
    ListingIsSorted(a);
    assert forall i :: 1 <= i < |gs| ==> gs[i] == fs[i + 1];
    assert gs[0].rel == fs[0].rel;
    forall x ensures x in gs <==> FileAt(Dir(b), x.rel) == Some(x.content) {
      TwinFiles(a, f, g, x.rel);
      ListingHolds(a, x);
      InTwin(f, g, rest, x);
    }
    ListingIs(b, gs);
    forall x | x in Listing(b) ensures RealRel(x.rel) {
      if x in rest { assert x in fs; } else { assert f in fs && x.rel == f.rel; }
    }
  }

  lemma {:induction false} InTwin(f: Found, g: Found, rest: seq<Found>, x: Found)
    requires NoRepeats([f, g] + rest)
    ensures x in [Fused(f, g)] + rest <==>
      if x.rel == f.rel then x == Fused(f, g) else if x.rel == g.rel then false else x in [f, g] + rest
  {
    var fs := [f, g] + rest;
    if x in rest {
      var i :| 0 <= i < |rest| && rest[i] == x;
      assert fs[i + 2] == x && fs[0] == f && fs[1] == g;
    }
  }

  // ----- a tree of two given files -----

  function Nest(p: seq<string>, x: string): seq<Entry>
    requires p != []
  {
    [Entry(p[0], if |p| == 1 then File(x) else Dir(Nest(p[1..], x)))]
  }

  function Pair(p: seq<string>, x: string, q: seq<string>, y: string): seq<Entry>
    requires Apart(p, q)
  {
    if p[0] == q[0] then
      TailsApart(p, q);
      [Entry(p[0], Dir(Pair(p[1..], x, q[1..], y)))]
    else Nest(p, x) + Nest(q, y)
  }

  lemma {:induction false} TailsApart(p: seq<string>, q: seq<string>)
    requires Apart(p, q) && p[0] == q[0]
    ensures Apart(p[1..], q[1..])
  {
    assert p == [p[0]] + p[1..] && q == [q[0]] + q[1..];
  }

  lemma {:induction false} EntryOfOne(e: Entry, rest: seq<Entry>, name: string)
    ensures EntryOf([e] + rest, name) == if e.name == name then Some(e.node) else EntryOf(rest, name)
  {
    assert ([e] + rest)[1..] == rest;
  }

  lemma {:induction false} NestFiles(p: seq<string>, x: string, r: seq<string>)
    requires p != []
    ensures WellFormed(Dir(Nest(p, x)))
    ensures FileAt(Dir(Nest(p, x)), r) == if r == p then Some(x) else None
  {
    assert p == [p[0]] + p[1..] && (r != [] ==> r == [r[0]] + r[1..]);
    var e := Nest(p, x)[0];
    assert Nest(p, x) == [e] + [];
    if r != [] { EntryOfOne(e, [], r[0]); }
    if |p| > 1 {
      NestFiles(p[1..], x, if r == [] then [] else r[1..]);
    }
  }

  lemma {:induction false} PairFiles(p: seq<string>, x: string, q: seq<string>, y: string, r: seq<string>)
    requires Apart(p, q)
    ensures WellFormed(Dir(Pair(p, x, q, y)))
    ensures FileAt(Dir(Pair(p, x, q, y)), r) == if r == p then Some(x) else if r == q then Some(y) else None
    decreases |p|
  {
    assert p == [p[0]] + p[1..] && q == [q[0]] + q[1..] && (r != [] ==> r == [r[0]] + r[1..]);
    if p[0] == q[0] {
      TailsApart(p, q);
      var e := Pair(p, x, q, y)[0];
      assert Pair(p, x, q, y) == [e] + [];
      if r != [] { EntryOfOne(e, [], r[0]); }
      PairFiles(p[1..], x, q[1..], y, if r == [] then [] else r[1..]);
    } else {
      NestFiles(p, x, r);
      NestFiles(q, y, r);
      assert Nest(p, x) == [Nest(p, x)[0]] && Nest(p, x) == [Nest(p, x)[0]] + [];
      if r != [] {
        EntryOfOne(Nest(p, x)[0], Nest(q, y), r[0]);
        EntryOfOne(Nest(p, x)[0], [], r[0]);
      }
    }
  }

  /** A single file whose content splits passes for two files. */
  lemma {:induction false} SplitFilePassesForTwo(a: seq<Entry>, f: Found, x: string, q: seq<string>, y: string)
    requires Real(a) && Listing(a) == [f] && SplitAt(f, x, q, y)
    ensures Real(Pair(f.rel, x, q, y))
    ensures Stream(Listing(Pair(f.rel, x, q, y))) == Stream(Listing(a)) && !SameFiles(Dir(a), Dir(Pair(f.rel, x, q, y)))
  {
    var b := Pair(f.rel, x, q, y);
    var g, h := Found(f.rel, x), Found(q, y);
    PairFiles(f.rel, x, q, y, q);
    PathBeforeTotal(f.rel, q);
    forall r ensures r in [g, h] <==> FileAt(Dir(b), r.rel) == Some(r.content) {
      PairFiles(f.rel, x, q, y, r.rel);
    }
    ListingIs(b, [g, h]);
    assert f in [f];
    assert Fused(g, h) == f;
    FusedStream(g, h, []);
    assert [g, h] + [] == [g, h] && [f] + [] == [f];
    ListingHolds(a, h);
    assert h != f;
  }

  // ----- and nothing else collides -----

  lemma {:induction false} StreamEndsLine(fs: seq<Found>)
    requires fs != []
    ensures Stream(fs) != "" && Stream(fs)[|Stream(fs)| - 1] == '\n'
  {
    if |fs| == 1 {
      assert Stream(fs) == Record(fs[0]) + Stream([]);
    } else {
      StreamEndsLine(fs[1..]);
    }
  }

  /** Two streams that are equal start with the same path. */
  lemma {:induction false} FirstPath(f: Found, s: string, g: Found, t: string)
    requires RealRel(f.rel) && RealRel(g.rel) && Record(f) + s == Record(g) + t
    ensures f.rel == g.rel && f.content + "\n" + s == g.content + "\n" + t
  {
    var p, q := Join(f.rel), Join(g.rel);
    var c, d := f.content + "\n" + s, g.content + "\n" + t;
    JoinOfReal(f.rel);
    JoinOfReal(g.rel);
    assert Record(f) + s == p + ("\0" + c) && Record(g) + t == q + ("\0" + d);
    FirstNul(p, c, q, d);
    JoinInjective(f.rel, g.rel);
  }

  lemma {:induction false} FirstNul(p: string, c: string, q: string, d: string)
    requires '\0' !in p && '\0' !in q && p + ("\0" + c) == q + ("\0" + d)
    ensures p == q && c == d
  {
    var u := p + ("\0" + c);
    assert forall k :: 0 <= k < |p| ==> u[k] == p[k];
    IndexOfUnique(u, '\0', |p|);
    assert forall k :: 0 <= k < |q| ==> u[k] == q[k];
    IndexOfUnique(u, '\0', |q|);
    assert p == u[..|p|] && q == u[..|q|];
    assert c == u[|p| + 1..] && d == u[|q| + 1..];
  }

  lemma {:induction false} SameBeforeNewline(c: string, d: string)
    requires c + "\n" == d + "\n"
    ensures c == d
  {
    assert c == (c + "\n")[..|c|] && d == (d + "\n")[..|d|];
  }

  /** Files of one tree do not lead through each other. */
  lemma {:induction false} FilesAreApart(node: Node, p: seq<string>, q: seq<string>)
    requires FileAt(node, p).Some? && FileAt(node, q).Some? && p <= q
    ensures p == q
    decreases |p|
  {
    if p != [] {
      var child := EntryOf(node.entries, p[0]).value;
      FilesAreApart(child, p[1..], q[1..]);
      assert p == [p[0]] + p[1..] && q == [q[0]] + q[1..];
    }
  }

  /** A tree with the stream of a single file has that file, or splits it. */
  lemma {:induction false} OneFileStream(f: Found, b: seq<Entry>)
    requires RealRel(f.rel) && Real(b) && Stream(Listing(b)) == Stream([f])
    ensures Listing(b) == [f] || Splits(f)
  {
    var gs := Listing(b);
    assert Stream([f]) == Record(f) + "";
    assert gs != [] && gs[0] in gs;
    var g, rest := gs[0], gs[1..];
    FirstPath(f, "", g, Stream(rest));
    if rest == [] {
      assert gs == [g] && Stream(rest) == "";
      assert f.content + "\n" + "" == f.content + "\n" && g.content + "\n" + "" == g.content + "\n";
      SameBeforeNewline(f.content, g.content);
    } else {
      SecondFile(f, b, g, rest);
    }
  }

  lemma {:induction false} SecondFile(f: Found, b: seq<Entry>, g: Found, rest: seq<Found>)
    requires Real(b) && Listing(b) == [g] + rest && rest != [] && f.rel == g.rel
    requires f.content + "\n" + "" == g.content + "\n" + Stream(rest)
    ensures Splits(f)
  {
    var h := rest[0];
    assert [g] + rest == Listing(b) && h == Listing(b)[1] && h in Listing(b);
    SecondIsApart(b, g, h);
    var y := SecondContent(h, rest[1..]);
    assert Stream(rest) == Record(h) + Stream(rest[1..]);
    var c := g.content + "\n" + Join(h.rel) + "\0" + y;
    assert c + "\n" == g.content + "\n" + Stream(rest);
    assert f.content + "\n" + "" == f.content + "\n";
    SameBeforeNewline(c, f.content);
    assert SplitAt(f, g.content, h.rel, y);
  }

  lemma {:induction false} SecondIsApart(b: seq<Entry>, g: Found, h: Found)
    requires Real(b) && |Listing(b)| >= 2 && g == Listing(b)[0] && h == Listing(b)[1]
    ensures PathBefore(g.rel, h.rel) && Apart(g.rel, h.rel)
  {
    assert g in Listing(b) && h in Listing(b);
    ListingIsSorted(b);
    PathBeforeTotal(g.rel, h.rel);
    ListingHolds(b, g);
    ListingHolds(b, h);
    if g.rel <= h.rel { FilesAreApart(Dir(b), g.rel, h.rel); }
    if h.rel <= g.rel { FilesAreApart(Dir(b), h.rel, g.rel); }
  }

  /** A record and those after it, without the last newline. */
  lemma {:induction false} SecondContent(h: Found, rest: seq<Found>) returns (y: string)
    ensures Record(h) + Stream(rest) == Join(h.rel) + "\0" + y + "\n"
  {
    var u := h.content + "\n" + Stream(rest);
    if rest != [] { StreamEndsLine(rest); }
    y := u[..|u| - 1];
    assert u == y + "\n";
    assert Record(h) + Stream(rest) == Join(h.rel) + "\0" + u;
  }

  lemma {:induction false} SameListingSameFiles(a: seq<Entry>, b: seq<Entry>)
    requires WellFormed(Dir(a)) && WellFormed(Dir(b)) && Listing(a) == Listing(b)
    ensures SameFiles(Dir(a), Dir(b))
  {
    forall path ensures FileAt(Dir(a), path) == FileAt(Dir(b), path) {
      SameListingSameFile(a, b, path);
      SameListingSameFile(b, a, path);
    }
  }

  /** No other tree has the stream of this one if and only if it has at most one file, and
      that file's content cannot be split. */
  lemma {:induction false} StreamIsUniqueExactly(a: seq<Entry>)
    requires Real(a)
    ensures AloneWithItsStream(a) <==> Listing(a) == [] || (|Listing(a)| == 1 && !CanSplit(Listing(a)[0]))
  {
    var fs := Listing(a);
    if |fs| >= 2 {
      var f, g, b := UncleanContentCollides(a);
    } else if |fs| == 1 {
      var f := fs[0];
      assert fs == [f] && f in fs;
      CanSplitExactly(f);
      if x, q, y :| SplitAt(f, x, q, y) {
        SplitFilePassesForTwo(a, f, x, q, y);
      } else {
        forall b | Real(b) && Stream(Listing(b)) == Stream(Listing(a)) ensures SameFiles(Dir(a), Dir(b)) {
          OneFileStream(f, b);
          SameListingSameFiles(a, b);
        }
      }
    } else {
      forall b | Real(b) && Stream(Listing(b)) == Stream(Listing(a)) ensures SameFiles(Dir(a), Dir(b)) {
        if Listing(b) != [] { StreamEndsLine(Listing(b)); }
        SameListingSameFiles(a, b);
      }
    }
  }
}

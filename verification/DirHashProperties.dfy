/** What the stream determines: the files of a tree, and nothing of the order they were
    found in. */
module DirHashProperties {
  import opened Text
  import opened Sorting
  import opened DirHash

  // ----- a tree as a map from path to content -----

  function EntryOf(entries: seq<Entry>, name: string): Option<Node> {
    if entries == [] then None
    else if entries[0].name == name then Some(entries[0].node)
    else EntryOf(entries[1..], name)
  }

  function FileAt(node: Node, path: seq<string>): Option<string>
    decreases |path|
  {
    match node
    case File(content) => if path == [] then Some(content) else None
    case Symlink => None
    case Dir(entries) =>
      if path == [] then None
      else match EntryOf(entries, path[0])
        case Some(child) => FileAt(child, path[1..])
        case None => None
  }

  /** No directory lists a name twice. */
  ghost predicate WellFormed(node: Node)
    decreases node
  {
    node.Dir? ==>
      && (forall i, j :: 0 <= i < j < |node.entries| ==> node.entries[i].name != node.entries[j].name)
      && (forall i :: 0 <= i < |node.entries| ==> WellFormed(node.entries[i].node))
  }

  ghost predicate SameFiles(a: Node, b: Node) {
    forall path :: FileAt(a, path) == FileAt(b, path)
  }

  lemma {:induction false} EntryOfAt(entries: seq<Entry>, i: nat)
    requires i < |entries| && forall a, b :: 0 <= a < b < |entries| ==> entries[a].name != entries[b].name
    ensures EntryOf(entries, entries[i].name) == Some(entries[i].node)
  {
    if i > 0 { EntryOfAt(entries[1..], i - 1); }
  }

  lemma {:induction false} EntryOfFound(entries: seq<Entry>, name: string)
    ensures EntryOf(entries, name).Some? ==>
      exists i :: 0 <= i < |entries| && entries[i].name == name && EntryOf(entries, name) == Some(entries[i].node)
    ensures EntryOf(entries, name).None? ==> forall i :: 0 <= i < |entries| ==> entries[i].name != name
  {
    if entries != [] {
      EntryOfFound(entries[1..], name);
      if entries[0].name != name && EntryOf(entries, name).Some? {
        var i :|
          && 0 <= i < |entries[1..]| && entries[1..][i].name == name
          && EntryOf(entries, name) == Some(entries[1..][i].node);
        assert entries[i + 1] == entries[1..][i];
      }
    }
  }

  // ----- the walk finds exactly the files -----

  ghost predicate NoRepeats(fs: seq<Found>) {
    forall i, j :: 0 <= i < j < |fs| ==> fs[i].rel != fs[j].rel
  }

  /** `f` is a file of `node`, with paths taken relative to `rel`. */
  ghost predicate IsFileOf(node: Node, rel: seq<string>, f: Found) {
    rel <= f.rel && FileAt(node, f.rel[|rel|..]) == Some(f.content)
  }

  lemma {:induction false} CollectFinds(node: Node, rel: seq<string>)
    requires WellFormed(node)
    ensures forall f :: f in Collect(node, rel) <==> IsFileOf(node, rel, f)
    ensures NoRepeats(Collect(node, rel))
    decreases node, 0
  {
    match node
    case Symlink =>
    case File(content) =>
      forall f ensures f in Collect(node, rel) <==> IsFileOf(node, rel, f) {
        if IsFileOf(node, rel, f) { assert f.rel == rel + f.rel[|rel|..] == rel; }
      }
    case Dir(entries) => CollectAllFinds(node, entries, rel);
  }

  lemma {:induction false} CollectAllFinds(node: Node, entries: seq<Entry>, rel: seq<string>)
    requires node == Dir(entries) && WellFormed(node)
    ensures forall f :: f in CollectAll(entries, rel) <==> IsFileOf(node, rel, f)
    ensures NoRepeats(CollectAll(entries, rel))
    decreases entries, 1
  {
    if entries != [] {
      var first, rest := entries[0], entries[1..];
      var below := rel + [first.name];
      var tail := Dir(rest);
      assert forall i :: 0 <= i < |rest| ==> rest[i] == entries[i + 1];
      CollectFinds(first.node, below);
      CollectAllFinds(tail, rest, rel);
      forall f ensures IsFileOf(node, rel, f) <==> IsFileOf(first.node, below, f) || IsFileOf(tail, rel, f) {
        FileOfFirst(node, rel, f);
      }
      forall f, g | f in Collect(first.node, below) && g in CollectAll(rest, rel) ensures f.rel != g.rel {
        assert IsFileOf(first.node, below, f) && IsFileOf(tail, rel, g);
        FirstIsNotInRest(entries, rel, f, g);
      }
      NoRepeatsAppend(Collect(first.node, below), CollectAll(rest, rel));
    }
  }

  lemma {:induction false} NoRepeatsAppend(a: seq<Found>, b: seq<Found>)
    requires NoRepeats(a) && NoRepeats(b) && forall f, g :: f in a && g in b ==> f.rel != g.rel
    ensures NoRepeats(a + b)
  {
    var s := a + b;
    forall i, j | 0 <= i < j < |s| ensures s[i].rel != s[j].rel {
      if i < |a| <= j {
        assert a[i] in a && b[j - |a|] in b;
      }
    }
  }

  lemma {:induction false} FileOfFirst(node: Node, rel: seq<string>, f: Found)
    requires node.Dir? && WellFormed(node) && node.entries != []
    ensures var first := node.entries[0];
      IsFileOf(node, rel, f) <==>
      IsFileOf(first.node, rel + [first.name], f) || IsFileOf(Dir(node.entries[1..]), rel, f)
  {
    var first, rest := node.entries[0], node.entries[1..];
    if rel <= f.rel && |f.rel| > |rel| {
      var path := f.rel[|rel|..];
      assert f.rel[|rel| + 1..] == path[1..];
      assert (rel + [first.name] <= f.rel) == (path[0] == first.name) by {
        assert f.rel[..|rel| + 1] == rel + [path[0]];
      }
      if path[0] == first.name {
        EntryOfFound(rest, first.name);
        assert forall i :: 0 <= i < |rest| ==> rest[i] == node.entries[i + 1];
      }
    }
  }

  lemma {:induction false} FirstIsNotInRest(entries: seq<Entry>, rel: seq<string>, f: Found, g: Found)
    requires entries != [] && WellFormed(Dir(entries))
    requires IsFileOf(entries[0].node, rel + [entries[0].name], f) && IsFileOf(Dir(entries[1..]), rel, g)
    ensures f.rel != g.rel
  {
    var rest := entries[1..];
    var name := g.rel[|rel|..][0];
    EntryOfFound(rest, name);
    var i :| 0 <= i < |rest| && rest[i].name == name;
    assert entries[i + 1].name == name;
    assert f.rel[|rel|] == (rel + [entries[0].name])[|rel|] == entries[0].name;
  }

  // ----- order of discovery does not show -----

  lemma {:induction false} NoRepeatsIsDistinct(fs: seq<Found>)
    ensures NoRepeats(fs) == Distinct(FoundBefore, fs)
  {
    forall i, j | 0 <= i < j < |fs|
      ensures (fs[i].rel != fs[j].rel) == (FoundBefore(fs[i], fs[j]) || FoundBefore(fs[j], fs[i]))
    {
      PathBeforeTotal(fs[i].rel, fs[j].rel);
    }
  }

  lemma {:induction false} CountsOfNoRepeats(fs: seq<Found>, f: Found)
    requires NoRepeats(fs)
    ensures multiset(fs)[f] == if f in fs then 1 else 0
  {
    if f in fs {
      var i :| 0 <= i < |fs| && fs[i] == f;
      assert fs == fs[..i] + [f] + fs[i + 1..];
      assert f !in fs[..i] && f !in fs[i + 1..];
    }
  }

  lemma {:induction false} SameMembersSameSorted(a: seq<Found>, b: seq<Found>)
    requires NoRepeats(a) && NoRepeats(b) && forall f :: f in a <==> f in b
    ensures SortBy(FoundBefore, a) == SortBy(FoundBefore, b)
  {
    forall f ensures multiset(a)[f] == multiset(b)[f] {
      CountsOfNoRepeats(a, f);
      CountsOfNoRepeats(b, f);
    }
    assert multiset(a) == multiset(b);
    OrderOfFound();
    SortSpec(FoundBefore, a);
    SortSpec(FoundBefore, b);
    SortedIsDistinct(a);
    SortedUnique(FoundBefore, SortBy(FoundBefore, a), SortBy(FoundBefore, b));
  }

  lemma {:induction false} SortedIsDistinct(a: seq<Found>)
    requires NoRepeats(a)
    ensures Distinct(FoundBefore, SortBy(FoundBefore, a))
  {
    var s := SortBy(FoundBefore, a);
    OrderOfFound();
    SortSpec(FoundBefore, a);
    forall i, j | 0 <= i < j < |s| ensures s[i].rel != s[j].rel {
      assert s[i] in multiset(a) && s[j] in multiset(a);
      CountsOfNoRepeats(a, s[i]);
      if s[i] == s[j] { CountTwo(s, i, j); }
      var x :| 0 <= x < |a| && a[x] == s[i];
      var y :| 0 <= y < |a| && a[y] == s[j];
      assert x != y;
    }
    NoRepeatsIsDistinct(s);
  }

  lemma {:induction false} ListingHolds(entries: seq<Entry>, f: Found)
    requires WellFormed(Dir(entries))
    ensures f in Listing(entries) <==> FileAt(Dir(entries), f.rel) == Some(f.content)
  {
    CollectAllFinds(Dir(entries), entries, []);
    OrderOfFound();
    SortSpec(FoundBefore, CollectAll(entries, []));
    assert f in multiset(Listing(entries)) <==> f in multiset(CollectAll(entries, []));
    FileOfRoot(Dir(entries), f);
  }

  lemma {:induction false} FileOfRoot(node: Node, f: Found)
    ensures IsFileOf(node, [], f) <==> FileAt(node, f.rel) == Some(f.content)
  {
    assert f.rel[0..] == f.rel;
  }

  /** Files are listed in the order of their paths. */
  lemma {:induction false} ListingIsOrdered(entries: seq<Entry>, i: nat, j: nat)
    requires WellFormed(Dir(entries)) && i < j < |Listing(entries)|
    ensures PathBefore(Listing(entries)[i].rel, Listing(entries)[j].rel)
  {
    CollectAllFinds(Dir(entries), entries, []);
    OrderOfFound();
    SortSpec(FoundBefore, CollectAll(entries, []));
    SortedIsDistinct(CollectAll(entries, []));
    var fs := Listing(entries);
    assert !FoundBefore(fs[j], fs[i]);
  }

  /** What a stream holds besides contents: the paths, and two bytes for each file. */
  function Overhead(fs: seq<Found>): nat {
    if fs == [] then 0 else |Join(fs[0].rel)| + 2 + Overhead(fs[1..])
  }

  /** The size reported is the length of the stream without paths and separators. */
  lemma {:induction false} SizeIsStreamLength(fs: seq<Found>)
    ensures |Stream(fs)| == Size(fs) + Overhead(fs)
  {
    if fs != [] {
      SizeIsStreamLength(fs[1..]);
    }
  }

  /** Trees with the same files hash the same stream, whatever order `readdir` used, and
      whatever symlinks and empty directories they hold. */
  lemma {:induction false} SameFilesSameStream(a: seq<Entry>, b: seq<Entry>)
    requires WellFormed(Dir(a)) && WellFormed(Dir(b)) && SameFiles(Dir(a), Dir(b))
    ensures Listing(a) == Listing(b) && Stream(Listing(a)) == Stream(Listing(b))
  {
    CollectAllFinds(Dir(a), a, []);
    CollectAllFinds(Dir(b), b, []);
    forall f ensures IsFileOf(Dir(a), [], f) == IsFileOf(Dir(b), [], f) {
      FileOfRoot(Dir(a), f);
      FileOfRoot(Dir(b), f);
    }
    SameMembersSameSorted(CollectAll(a, []), CollectAll(b, []));
  }

  function NamesOf(entries: seq<Entry>): set<string> { set i | 0 <= i < |entries| :: entries[i].name }

  /** The same tree, every directory listed in some other order. */
  ghost predicate Reordered(a: Node, b: Node)
    decreases a
  {
    match a
    case File(_) => a == b
    case Symlink => a == b
    case Dir(es) =>
      && b.Dir? && |b.entries| == |es| && NamesOf(b.entries) == NamesOf(es)
      && (forall i, j :: 0 <= i < |es| && 0 <= j < |b.entries| && es[i].name == b.entries[j].name ==>
            Reordered(es[i].node, b.entries[j].node))
  }

  lemma {:induction false} ReorderedSameFiles(a: Node, b: Node, path: seq<string>)
    requires Reordered(a, b) && WellFormed(a) && WellFormed(b)
    ensures FileAt(a, path) == FileAt(b, path)
    decreases |path|
  {
    if a.Dir? && path != [] {
      var name := path[0];
      var child, other := EntryOf(a.entries, name), EntryOf(b.entries, name);
      ReorderedChild(a, b, name);
      if child.Some? && other.Some? {
        ReorderedSameFiles(child.value, other.value, path[1..]);
      }
    }
  }

  lemma {:induction false} ReorderedChild(a: Node, b: Node, name: string)
    requires a.Dir? && Reordered(a, b) && WellFormed(a) && WellFormed(b)
    ensures var child, other := EntryOf(a.entries, name), EntryOf(b.entries, name);
      child.Some? == other.Some? &&
      (child.Some? ==> Reordered(child.value, other.value) && WellFormed(child.value) && WellFormed(other.value))
  {
    EntryOfFound(a.entries, name);
    EntryOfFound(b.entries, name);
    assert name in NamesOf(a.entries) <==> name in NamesOf(b.entries);
    assert EntryOf(a.entries, name).Some? <==> name in NamesOf(a.entries);
    assert EntryOf(b.entries, name).Some? <==> name in NamesOf(b.entries);
    if name in NamesOf(a.entries) {
      var i :| 0 <= i < |a.entries| && a.entries[i].name == name && EntryOf(a.entries, name) == Some(a.entries[i].node);
      var j :| 0 <= j < |b.entries| && b.entries[j].name == name && EntryOf(b.entries, name) == Some(b.entries[j].node);
      assert Reordered(a.entries[i].node, b.entries[j].node);
    }
  }

  lemma {:induction false} ReaddirOrderDoesNotMatter(a: seq<Entry>, b: seq<Entry>)
    requires WellFormed(Dir(a)) && WellFormed(Dir(b)) && Reordered(Dir(a), Dir(b))
    ensures Stream(Listing(a)) == Stream(Listing(b))
  {
    forall path ensures FileAt(Dir(a), path) == FileAt(Dir(b), path) {
      ReorderedSameFiles(Dir(a), Dir(b), path);
    }
    SameFilesSameStream(a, b);
  }

  // ----- reading the stream back -----

  /** What follows a newline can only be the next record, or the end: its first NUL comes
      before any newline. */
  predicate StartsRecord(t: string) {
    t == "" || (IndexOf(t, '\0') < |t| && IndexOf(t, '\0') < IndexOf(t, '\n'))
  }

  function ContentEnd(t: string): (n: nat)
    ensures n <= |t|
  {
    if t == "" then 0
    else if t[0] == '\n' && StartsRecord(t[1..]) then 0
    else 1 + ContentEnd(t[1..])
  }

  /** The path and content of each record, as far as the stream tells. */
  function Decode(s: string): seq<(string, string)>
    decreases |s|
  {
    var i := IndexOf(s, '\0');
    if i == |s| then []
    else
      var t := s[i + 1..];
      var n := ContentEnd(t);
      [(s[..i], t[..n])] + if n < |t| then Decode(t[n + 1..]) else []
  }

  function Pairs(fs: seq<Found>): (ps: seq<(string, string)>)
    ensures |ps| == |fs|
    ensures forall i :: 0 <= i < |fs| ==> ps[i] == (Join(fs[i].rel), fs[i].content)
  {
    if fs == [] then [] else [(Join(fs[0].rel), fs[0].content)] + Pairs(fs[1..])
  }

  predicate PlainPath(path: string) { '\0' !in path && '\n' !in path }

  /** No NUL behind a newline. Content without NUL is a special case. */
  ghost predicate Clean(content: string) {
    forall i, j :: 0 <= i < j < |content| && content[i] == '\n' ==> content[j] != '\0'
  }

  lemma {:induction false} NulFreeIsClean(content: string)
    requires '\0' !in content
    ensures Clean(content)
  {
  }

  lemma {:induction false} RecordStarts(fs: seq<Found>)
    requires forall i :: 0 <= i < |fs| ==> PlainPath(Join(fs[i].rel))
    ensures StartsRecord(Stream(fs))
  {
    if fs != [] {
      var p := Join(fs[0].rel);
      var s := Stream(fs);
      assert s == p + ("\0" + fs[0].content + "\n" + Stream(fs[1..]));
      assert s[|p|] == '\0' && forall k :: 0 <= k < |p| ==> s[k] == p[k];
      IndexOfUnique(s, '\0', |p|);
    }
  }

  /** Clean content ends where the decoder says. */
  lemma {:induction false} CleanContentEnd(content: string, rest: string)
    requires Clean(content) && StartsRecord(rest)
    ensures ContentEnd(content + "\n" + rest) == |content|
  {
    var t := content + "\n" + rest;
    if content == "" {
      assert t[1..] == rest;
    } else {
      assert t[1..] == content[1..] + "\n" + rest;
      CleanContentEnd(content[1..], rest);
      if content[0] == '\n' {
        NoRecordInside(content[1..], rest);
      }
    }
  }

  lemma {:induction false} NoRecordInside(c: string, rest: string)
    requires '\0' !in c
    ensures !StartsRecord(c + "\n" + rest)
  {
    var t := c + "\n" + rest;
    assert t[|c|] == '\n';
    forall k | 0 <= k <= |c| ensures t[k] != '\0' {
      if k < |c| { assert t[k] == c[k]; }
    }
  }

  /** Unclean content is cut short. */
  lemma {:induction false} UncleanContentEnd(content: string, rest: string)
    requires !Clean(content)
    ensures ContentEnd(content + rest) < |content|
  {
    var t := content + rest;
    var c := content[1..];
    assert t[1..] == c + rest;
    if !Clean(c) {
      UncleanContentEnd(c, rest);
    } else {
      assert content[0] == '\n' && '\0' in c;
      var k := IndexOf(c, '\0');
      var u := c + rest;
      assert forall i :: 0 <= i <= k ==> u[i] == c[i];
      IndexOfUnique(u, '\0', k);
      assert forall i :: 0 <= i < k ==> c[i] != '\n';
    }
  }

  lemma {:induction false} DecodeFirst(f: Found, rest: string)
    requires PlainPath(Join(f.rel))
    ensures var t := f.content + "\n" + rest;
      var n := ContentEnd(t);
      Decode(Record(f) + rest) == [(Join(f.rel), t[..n])] + if n < |t| then Decode(t[n + 1..]) else []
  {
    var p := Join(f.rel);
    var s := Record(f) + rest;
    assert s == p + ("\0" + f.content + "\n" + rest);
    assert s[|p|] == '\0' && forall k :: 0 <= k < |p| ==> s[k] == p[k];
    IndexOfUnique(s, '\0', |p|);
    assert s[..|p|] == p && s[|p| + 1..] == f.content + "\n" + rest;
  }

  ghost predicate AllClean(fs: seq<Found>) {
    forall i :: 0 <= i < |fs| ==> Clean(fs[i].content)
  }

  ghost predicate AllPlain(fs: seq<Found>) {
    forall i :: 0 <= i < |fs| ==> PlainPath(Join(fs[i].rel))
  }

  /** The stream gives the files back exactly when no content has a NUL behind a newline. */
  lemma {:induction false} DecodeExactly(fs: seq<Found>)
    requires AllPlain(fs)
    ensures Decode(Stream(fs)) == Pairs(fs) <==> AllClean(fs)
  {
    if fs != [] {
      DecodeExactly(fs[1..]);
      DecodeHead(fs);
      AllCleanHead(fs);
    }
  }

  lemma {:induction false} AllCleanHead(fs: seq<Found>)
    requires fs != []
    ensures AllClean(fs) <==> Clean(fs[0].content) && AllClean(fs[1..])
  {
    if Clean(fs[0].content) && AllClean(fs[1..]) {
      assert forall i :: 0 < i < |fs| ==> fs[i] == fs[1..][i - 1];
    }
    if AllClean(fs) {
      assert forall i :: 0 <= i < |fs[1..]| ==> fs[1..][i] == fs[i + 1];
    }
  }

  lemma {:induction false} DecodeHead(fs: seq<Found>)
    requires AllPlain(fs) && fs != []
    ensures Decode(Stream(fs)) == Pairs(fs) <==>
            Clean(fs[0].content) && Decode(Stream(fs[1..])) == Pairs(fs[1..])
  {
    var f, rest := fs[0], Stream(fs[1..]);
    var pair := (Join(f.rel), f.content);
    assert Pairs(fs) == [pair] + Pairs(fs[1..]);
    if Clean(f.content) {
      RecordStarts(fs[1..]);
      DecodeCleanHead(f, rest);
      SameTails(pair, Decode(rest), Pairs(fs[1..]));
    } else {
      DecodeUncleanHead(f, rest);
    }
  }

  lemma {:induction false} DecodeCleanHead(f: Found, rest: string)
    requires PlainPath(Join(f.rel)) && Clean(f.content) && StartsRecord(rest)
    ensures Decode(Record(f) + rest) == [(Join(f.rel), f.content)] + Decode(rest)
  {
    var t := f.content + "\n" + rest;
    DecodeFirst(f, rest);
    CleanContentEnd(f.content, rest);
    assert t[..|f.content|] == f.content && t[|f.content| + 1..] == rest;
  }

  lemma {:induction false} DecodeUncleanHead(f: Found, rest: string)
    requires PlainPath(Join(f.rel)) && !Clean(f.content)
    ensures Decode(Record(f) + rest) != [] && |Decode(Record(f) + rest)[0].1| < |f.content|
  {
    DecodeFirst(f, rest);
    UncleanContentEnd(f.content, "\n" + rest);
    assert f.content + ("\n" + rest) == f.content + "\n" + rest;
  }

  lemma {:induction false} SameTails<T>(x: T, a: seq<T>, b: seq<T>)
    ensures [x] + a == [x] + b <==> a == b
  {
    assert ([x] + a)[1..] == a && ([x] + b)[1..] == b;
  }

  // ----- paths from their joined form -----

  /** What a directory entry can be called. */
  predicate RealName(name: string) { name != "" && name != "." && name != ".." && '/' !in name && '\0' !in name }

  predicate RealRel(rel: seq<string>) {
    rel != [] && forall i :: 0 <= i < |rel| ==> RealName(rel[i])
  }

  predicate PlainName(name: string) { RealName(name) && '\n' !in name }

  ghost predicate PlainRel(rel: seq<string>) {
    rel != [] && forall i :: 0 <= i < |rel| ==> PlainName(rel[i])
  }

  lemma {:induction false} JoinOfPlain(rel: seq<string>)
    requires PlainRel(rel)
    ensures PlainPath(Join(rel))
  {
    assert PlainName(rel[0]);
    if |rel| > 1 { JoinOfPlain(rel[1..]); }
  }

  lemma {:induction false} JoinOfReal(rel: seq<string>)
    requires RealRel(rel)
    ensures '\0' !in Join(rel)
    ensures IndexOf(Join(rel), '/') == |rel[0]| && Join(rel)[..|rel[0]|] == rel[0]
    ensures |Join(rel)| == |rel[0]| <==> |rel| == 1
    ensures |rel| > 1 ==> Join(rel)[|rel[0]| + 1..] == Join(rel[1..])
  {
    assert RealName(rel[0]);
    IndexOfUnique(Join(rel), '/', |rel[0]|);
    if |rel| > 1 { JoinOfReal(rel[1..]); }
  }

  lemma {:induction false} JoinInjective(a: seq<string>, b: seq<string>)
    requires RealRel(a) && RealRel(b) && Join(a) == Join(b)
    ensures a == b
  {
    JoinOfReal(a);
    JoinOfReal(b);
    assert a == [a[0]] + a[1..] && b == [b[0]] + b[1..];
    if |a| > 1 { JoinInjective(a[1..], b[1..]); }
  }

  /** Names as file systems allow them, newlines apart, and clean contents. */
  ghost predicate Plain(entries: seq<Entry>) {
    forall f :: f in Listing(entries) ==> PlainRel(f.rel) && Clean(f.content)
  }

  /** For such trees the stream is the same exactly when the files are. */
  lemma {:induction false} StreamDeterminesFiles(a: seq<Entry>, b: seq<Entry>)
    requires WellFormed(Dir(a)) && WellFormed(Dir(b)) && Plain(a) && Plain(b)
    ensures Stream(Listing(a)) == Stream(Listing(b)) <==> SameFiles(Dir(a), Dir(b))
  {
    if SameFiles(Dir(a), Dir(b)) {
      SameFilesSameStream(a, b);
    }
    if Stream(Listing(a)) == Stream(Listing(b)) {
      PlainListing(a);
      PlainListing(b);
      DecodeExactly(Listing(a));
      DecodeExactly(Listing(b));
      PairsInjective(a, b);
      forall path ensures FileAt(Dir(a), path) == FileAt(Dir(b), path) {
        SameListingSameFile(a, b, path);
        SameListingSameFile(b, a, path);
      }
    }
  }

  lemma {:induction false} PlainListing(a: seq<Entry>)
    requires Plain(a)
    ensures AllPlain(Listing(a)) && AllClean(Listing(a))
  {
    forall i | 0 <= i < |Listing(a)| ensures PlainPath(Join(Listing(a)[i].rel)) && Clean(Listing(a)[i].content) {
      assert Listing(a)[i] in Listing(a);
      JoinOfPlain(Listing(a)[i].rel);
    }
  }

  lemma {:induction false} PairsInjective(a: seq<Entry>, b: seq<Entry>)
    requires Plain(a) && Plain(b) && Pairs(Listing(a)) == Pairs(Listing(b))
    ensures Listing(a) == Listing(b)
  {
    var fs, gs := Listing(a), Listing(b);
    forall i | 0 <= i < |fs| ensures fs[i] == gs[i] {
      assert fs[i] in fs && gs[i] in gs && Pairs(fs)[i] == Pairs(gs)[i];
      JoinInjective(fs[i].rel, gs[i].rel);
    }
  }

  lemma {:induction false} SameListingSameFile(a: seq<Entry>, b: seq<Entry>, path: seq<string>)
    requires WellFormed(Dir(a)) && WellFormed(Dir(b)) && Listing(a) == Listing(b)
    ensures FileAt(Dir(a), path).Some? ==> FileAt(Dir(b), path) == FileAt(Dir(a), path)
  {
    if FileAt(Dir(a), path).Some? {
      ListingHolds(a, Found(path, FileAt(Dir(a), path).value));
      ListingHolds(b, Found(path, FileAt(Dir(a), path).value));
    }
  }
}

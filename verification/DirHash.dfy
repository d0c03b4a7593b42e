/** `hash_dir`: the byte stream a directory tree is hashed as. Byte strings are strings. */
module DirHash {
  import opened Text
  import opened Numbers
  import opened Sorting

  /** A directory as `readdir` delivers it, entries in whatever order. */
  datatype Node = File(content: string) | Dir(entries: seq<Entry>) | Symlink

  datatype Entry = Entry(name: string, node: Node)

  datatype Found = Found(rel: seq<string>, content: string)

  // ----- the walk -----

  function Collect(node: Node, rel: seq<string>): seq<Found>
    decreases node
  {
    match node
    case File(content) => [Found(rel, content)]
    case Symlink => []
    case Dir(entries) => CollectAll(entries, rel)
  }

  function CollectAll(entries: seq<Entry>, rel: seq<string>): seq<Found>
    decreases entries
  {
    if entries == [] then []
    else Collect(entries[0].node, rel + [entries[0].name]) + CollectAll(entries[1..], rel)
  }

  /** `collect_files`: append every regular file below `entries` to the vector. */
  method CollectFiles(entries: seq<Entry>, rel: seq<string>, found: seq<Found>) returns (out: seq<Found>)
    ensures out == found + CollectAll(entries, rel)
    decreases entries
  {
    out := found;
    var i := 0;
    while i < |entries|
      invariant i <= |entries|
      invariant out + CollectAll(entries[i..], rel) == found + CollectAll(entries, rel)
    {
      var entry := entries[i];
      assert entries[i..][1..] == entries[i + 1..];
      match entry.node {
        case Dir(children) => out := CollectFiles(children, rel + [entry.name], out);
        case File(content) => out := out + [Found(rel + [entry.name], content)];
        case Symlink =>
      }
      i := i + 1;
    }
  }

  // ----- the stream -----

  predicate FoundBefore(f: Found, g: Found) { PathBefore(f.rel, g.rel) }

  function Join(rel: seq<string>): string {
    if rel == [] then "" else if |rel| == 1 then rel[0] else rel[0] + "/" + Join(rel[1..])
  }

  function Record(f: Found): string { Join(f.rel) + "\0" + f.content + "\n" }

  function Stream(fs: seq<Found>): string {
    if fs == [] then "" else Record(fs[0]) + Stream(fs[1..])
  }

  function Size(fs: seq<Found>): nat {
    if fs == [] then 0 else |fs[0].content| + Size(fs[1..])
  }

  function Listing(entries: seq<Entry>): seq<Found> { SortBy(FoundBefore, CollectAll(entries, [])) }

  /** Digest and size; `sha256` is whatever function the hasher computes. */
  method HashDir(entries: seq<Entry>, sha256: string -> string) returns (digest: string, sizeBytes: nat)
    ensures digest == "sha256:" + sha256(Stream(Listing(entries)))
    ensures sizeBytes == Saturated(Size(Listing(entries)))
  {
    var files := CollectFiles(entries, [], []);
    assert files == CollectAll(entries, []);
    files := SortBy(FoundBefore, files);
    var hasher;
    hasher, sizeBytes := Feed(files);
    digest := "sha256:" + sha256(hasher);
  }

  /** The loop over sorted files: path, NUL, bytes, newline into the hasher, and a running
      size that sticks at the largest 64-bit number. */
  method Feed(files: seq<Found>) returns (hasher: string, sizeBytes: nat)
    ensures hasher == Stream(files) && sizeBytes == Saturated(Size(files))
  {
    hasher, sizeBytes := "", 0;
    var i := 0;
    while i < |files|
      invariant i <= |files|
      invariant hasher + Stream(files[i..]) == Stream(files)
      invariant sizeBytes <= U64_MAX && Saturated(sizeBytes + Size(files[i..])) == Saturated(Size(files))
    {
      StreamStep(hasher, files, i);
      hasher := hasher + Join(files[i].rel) + "\0" + files[i].content + "\n";
      sizeBytes := SaturatingAdd(sizeBytes, |files[i].content|);
      i := i + 1;
    }
    assert hasher + Stream([]) == hasher && files[i..] == [];
  }

  lemma {:induction false} StreamStep(hasher: string, files: seq<Found>, i: nat)
    requires i < |files|
    ensures hasher + Stream(files[i..]) ==
            (hasher + Join(files[i].rel) + "\0" + files[i].content + "\n") + Stream(files[i + 1..])
    ensures Size(files[i..]) == |files[i].content| + Size(files[i + 1..])
  {
    assert files[i..][1..] == files[i + 1..];
    var r := Record(files[i]);
    assert Stream(files[i..]) == r + Stream(files[i + 1..]);
    assert hasher + r == hasher + Join(files[i].rel) + "\0" + files[i].content + "\n";
    assert hasher + (r + Stream(files[i + 1..])) == (hasher + r) + Stream(files[i + 1..]);
  }

  lemma {:induction false} OrderOfFound()
    ensures IsOrder(FoundBefore)
  {
    forall f, g | FoundBefore(f, g) ensures !FoundBefore(g, f) {
      PathBeforeTotal(f.rel, g.rel);
    }
    forall f, g, h | !FoundBefore(g, f) && !FoundBefore(h, g) ensures !FoundBefore(h, f) {
      PathBeforeTotal(f.rel, g.rel);
      PathBeforeTotal(g.rel, h.rel);
      PathBeforeTotal(f.rel, h.rel);
      if FoundBefore(f, g) && FoundBefore(g, h) { PathBeforeTransitive(f.rel, g.rel, h.rel); }
    }
  }
}

/** Publishing to and pulling from an OCI registry: two blobs, then the manifest; the
    manifest, then the blob it names, hashed again. */
module Registry {
  import opened Text

  datatype Descriptor = Descriptor(mediaType: string, digest: string, size: nat)

  datatype OciManifest = OciManifest(schemaVersion: nat, mediaType: string, config: Descriptor, layers: seq<Descriptor>)

  /** What the puller reads of a manifest's layer. */
  datatype Layer = Layer(mediaType: string, digest: string)

  const MANIFEST_TYPE := "application/vnd.oci.image.manifest.v1+json"
  const CONFIG_TYPE := "application/vnd.akua.package.config.v1+json"
  const LAYER_TYPE := "application/vnd.akua.package.content.v1.tar+gzip"

  /** SHA-256 as a digest string, and JSON. */
  datatype Library = Library(
    hash: string -> string,
    toJson: OciManifest -> string,
    fromJson: string -> Option<seq<Layer>>,
    config: string -> string)

  // ----- what one publish sends -----

  datatype PublishDigests = PublishDigests(
    layerDigest: string,
    layerSize: nat,
    configDigest: string,
    configBytes: string,
    manifestDigest: string,
    manifestBytes: string)

  /** A function of the layer and of the version of the binary, and of nothing remote. */
  function ComputePublishDigests(lib: Library, version: string, layer: string): PublishDigests {
    var config := lib.config(version);
    var manifest := OciManifest(2, MANIFEST_TYPE,
      Descriptor(CONFIG_TYPE, lib.hash(config), |config|),
      [Descriptor(LAYER_TYPE, lib.hash(layer), |layer|)]);
    var bytes := lib.toJson(manifest);
    PublishDigests(lib.hash(layer), |layer|, lib.hash(config), config, lib.hash(bytes), bytes)
  }

  function FindAkuaLayer(ls: seq<Layer>): Option<Layer> {
    if ls == [] then None else if ls[0].mediaType == LAYER_TYPE then Some(ls[0]) else FindAkuaLayer(ls[1..])
  }

  /** Reading back a serialised manifest gives its layers. */
  ghost predicate Lawful(lib: Library) {
    forall m :: lib.fromJson(lib.toJson(m)) ==
      Some(seq(|m.layers|, i requires 0 <= i < |m.layers| => Layer(m.layers[i].mediaType, m.layers[i].digest)))
  }

  ghost predicate CollisionFree(lib: Library) {
    forall a, b :: lib.hash(a) == lib.hash(b) ==> a == b
  }

  // ----- the registry -----

  datatype Store = Store(blobs: map<string, string>, tags: map<string, string>)

  datatype PullError = TagNotFound | BadManifest | NoAkuaLayer | BlobNotFound | DigestMismatch

  datatype Pulled = Package(tarball: string, manifestDigest: string, layerDigest: string) | PullFailed(error: PullError)

  /** The outcome of a pull that nothing disturbs. */
  function PullResult(lib: Library, s: Store, tag: string): Pulled {
    if tag !in s.tags then PullFailed(TagNotFound)
    else match LayerOf(lib, s.tags[tag])
      case Err(e) => PullFailed(e)
      case Ok(digest) =>
        if digest !in s.blobs then PullFailed(BlobNotFound)
        else if lib.hash(s.blobs[digest]) != digest then PullFailed(DigestMismatch)
        else Package(s.blobs[digest], lib.hash(s.tags[tag]), digest)
  }

  function LayerOf(lib: Library, manifest: string): Result<string, PullError> {
    match lib.fromJson(manifest)
    case None => Err(BadManifest)
    case Some(layers) => match FindAkuaLayer(layers) case None => Err(NoAkuaLayer) case Some(l) => Ok(l.digest)
  }

  // ----- what is sent, and what a pull makes of it -----

  /** The manifest sent describes both blobs sent by their types, digests and sizes; every digest
      is the hash of the bytes it goes with. */
  lemma {:induction false} ManifestDescribesBlobs(lib: Library, version: string, layer: string)
      returns (config: Descriptor, content: Descriptor)
    ensures
      var d := ComputePublishDigests(lib, version, layer);
      && d.layerDigest == lib.hash(layer) && d.layerSize == |layer|
      && d.configBytes == lib.config(version) && d.configDigest == lib.hash(d.configBytes)
      && d.manifestDigest == lib.hash(d.manifestBytes)
      && d.manifestBytes ==
         lib.toJson(OciManifest(2, "application/vnd.oci.image.manifest.v1+json", config, [content]))
      && config == Descriptor("application/vnd.akua.package.config.v1+json", d.configDigest, |d.configBytes|)
      && content == Descriptor("application/vnd.akua.package.content.v1.tar+gzip", d.layerDigest, |layer|)
  {
    var d := ComputePublishDigests(lib, version, layer);
    config := Descriptor(CONFIG_TYPE, d.configDigest, |d.configBytes|);
    content := Descriptor(LAYER_TYPE, d.layerDigest, |layer|);
  }

  /** Layer `i` is the first of the package type. */
  predicate FirstAkuaLayer(ls: seq<Layer>, i: nat) {
    && i < |ls| && ls[i].mediaType == "application/vnd.akua.package.content.v1.tar+gzip"
    && forall j :: 0 <= j < i ==> ls[j].mediaType != "application/vnd.akua.package.content.v1.tar+gzip"
  }

  lemma {:induction false} FindAkuaLayerIs(ls: seq<Layer>, i: nat)
    ensures FirstAkuaLayer(ls, i) ==> FindAkuaLayer(ls) == Some(ls[i])
    ensures FindAkuaLayer(ls) == None <==> forall l :: l in ls ==> l.mediaType != LAYER_TYPE
  {
    if ls != [] {
      var rest := ls[1..];
      assert FirstAkuaLayer(ls, i) && i > 0 ==> ls[0].mediaType != LAYER_TYPE && FirstAkuaLayer(rest, i - 1);
      FindAkuaLayerIs(rest, if i > 0 then i - 1 else 0);
      assert ls == [ls[0]] + rest;
    }
  }

  /** A pull hands over a blob if and only if the tag names a manifest whose first layer of the
      package type is a blob that hashes to its declared digest. */
  lemma {:induction false} PullSucceedsExactly(lib: Library, s: Store, tag: string, p: Pulled)
    requires p.Package?
    ensures PullResult(lib, s, tag) == p <==>
      && tag in s.tags && p.manifestDigest == lib.hash(s.tags[tag])
      && lib.fromJson(s.tags[tag]).Some?
      && (exists i: nat :: FirstAkuaLayer(lib.fromJson(s.tags[tag]).value, i)
                           && lib.fromJson(s.tags[tag]).value[i].digest == p.layerDigest)
      && p.layerDigest in s.blobs && s.blobs[p.layerDigest] == p.tarball && lib.hash(p.tarball) == p.layerDigest
  {
    if tag in s.tags && lib.fromJson(s.tags[tag]).Some? {
      var ls := lib.fromJson(s.tags[tag]).value;
      forall i: nat | FirstAkuaLayer(ls, i) ensures FindAkuaLayer(ls) == Some(ls[i]) {
        FindAkuaLayerIs(ls, i);
      }
      if FindAkuaLayer(ls).Some? {
        var i := SomeAkuaLayer(ls);
      }
    }
  }

  lemma {:induction false} SomeAkuaLayer(ls: seq<Layer>) returns (i: nat)
    requires FindAkuaLayer(ls).Some?
    ensures FirstAkuaLayer(ls, i)
  {
    if ls[0].mediaType == LAYER_TYPE {
      i := 0;
    } else {
      var k := SomeAkuaLayer(ls[1..]);
      i := k + 1;
      assert forall j :: 0 < j < i ==> ls[j] == ls[1..][j - 1];
    }
  }

  /** And it fails with what is missing first. */
  lemma {:induction false} PullFailsWith(lib: Library, s: Store, tag: string)
    ensures tag !in s.tags <==> PullResult(lib, s, tag) == PullFailed(TagNotFound)
    ensures tag in s.tags ==>
      (lib.fromJson(s.tags[tag]).None? <==> PullResult(lib, s, tag) == PullFailed(BadManifest))
    ensures tag in s.tags && lib.fromJson(s.tags[tag]).Some? ==>
      (PullResult(lib, s, tag) == PullFailed(NoAkuaLayer) <==>
       forall l :: l in lib.fromJson(s.tags[tag]).value ==> l.mediaType != LAYER_TYPE)
    ensures tag in s.tags && LayerOf(lib, s.tags[tag]).Ok? ==>
      var digest := LayerOf(lib, s.tags[tag]).value;
      && (digest !in s.blobs <==> PullResult(lib, s, tag) == PullFailed(BlobNotFound))
      && (digest in s.blobs && lib.hash(s.blobs[digest]) != digest <==>
          PullResult(lib, s, tag) == PullFailed(DigestMismatch))
  {
    if tag in s.tags && lib.fromJson(s.tags[tag]).Some? {
      FindAkuaLayerIs(lib.fromJson(s.tags[tag]).value, 0);
    }
  }

  class Repository {
    var blobs: map<string, string>
    var tags: map<string, string>

    constructor ()
      ensures blobs == map[] && tags == map[]
    {
      blobs, tags := map[], map[];
    }

    /** The registry keeps what it is sent under the digest it is sent with. */
    method UploadBlob(bytes: string, digest: string)
      modifies this
      ensures blobs == old(blobs)[digest := bytes] && tags == old(tags)
    {
      blobs := blobs[digest := bytes];
    }

    method PutManifest(tag: string, bytes: string)
      modifies this
      ensures tags == old(tags)[tag := bytes] && blobs == old(blobs)
    {
      tags := tags[tag := bytes];
    }

    method Push(lib: Library, version: string, tag: string, layer: string) returns (d: PublishDigests)
      modifies this
      ensures d == ComputePublishDigests(lib, version, layer)
      ensures blobs == old(blobs)[d.layerDigest := layer][d.configDigest := d.configBytes]
      ensures tags == old(tags)[tag := d.manifestBytes]
    {
      d := ComputePublishDigests(lib, version, layer);
      UploadBlob(layer, d.layerDigest);
      UploadBlob(d.configBytes, d.configDigest);
      PutManifest(tag, d.manifestBytes);
    }

    method Pull(lib: Library, tag: string) returns (r: Pulled)
      ensures r == PullResult(lib, Store(blobs, tags), tag)
    {
      if tag !in tags {
        return PullFailed(TagNotFound);
      }
      var manifest := tags[tag];
      var manifestDigest := lib.hash(manifest);
      var layer := LayerOf(lib, manifest);
      if layer.Err? {
        return PullFailed(layer.error);
      }
      if layer.value !in blobs {
        return PullFailed(BlobNotFound);
      }
      var blob := blobs[layer.value];
      if lib.hash(blob) != layer.value {
        return PullFailed(DigestMismatch);
      }
      r := Package(blob, manifestDigest, layer.value);
    }
  }

  // ----- any number of clients at once -----

  datatype PushPc = StartLayer | PutLayer | StartConfig | PutConfig | PutTag | Published | Aborted

  datatype PullPc =
    | GetManifest
    | GetBlob(manifest: string, digest: string, source: nat)
    | Finished(result: Pulled, source: nat)
    | Gone

  datatype Client =
    | Pusher(version: string, tag: string, layer: string, push: PushPc)
    | Puller(wanted: string, pull: PullPc)

  /** `owner` says which client's manifest was the last to be put under a tag. */
  datatype State = State(store: Store, clients: map<nat, Client>, owner: map<string, nat>)

  const EMPTY := State(Store(map[], map[]), map[], map[])

  datatype Step =
    | NewPush(id: nat, version: string, tag: string, layer: string)
    | NewPull(id: nat, tag: string)
    | Proceed(id: nat)
    | Abort(id: nat)

  function With(s: State, id: nat, c: Client): State { s.(clients := s.clients[id := c]) }

  function PutBlob(s: Store, bytes: string, digest: string): Store { s.(blobs := s.blobs[digest := bytes]) }

  /** One request of a push. */
  function Pushing(lib: Library, s: State, id: nat, c: Client): State
    requires c.Pusher?
  {
    var d := ComputePublishDigests(lib, c.version, c.layer);
    match c.push
    case StartLayer => With(s, id, c.(push := PutLayer))
    case PutLayer => With(s.(store := PutBlob(s.store, c.layer, d.layerDigest)), id, c.(push := StartConfig))
    case StartConfig => With(s, id, c.(push := PutConfig))
    case PutConfig => With(s.(store := PutBlob(s.store, d.configBytes, d.configDigest)), id, c.(push := PutTag))
    case PutTag =>
      var store := s.store.(tags := s.store.tags[c.tag := d.manifestBytes]);
      State(store, s.clients[id := c.(push := Published)], s.owner[c.tag := id])
    case _ => s
  }

  /** One request of a pull, and the checks on its answer. */
  function Pulling(lib: Library, s: State, id: nat, c: Client): State
    requires c.Puller?
  {
    match c.pull
    case GetManifest =>
      if c.wanted !in s.store.tags || c.wanted !in s.owner then
        With(s, id, c.(pull := Finished(PullFailed(TagNotFound), 0)))
      else
        var manifest := s.store.tags[c.wanted];
        var source := s.owner[c.wanted];
        (match LayerOf(lib, manifest)
         case Err(e) => With(s, id, c.(pull := Finished(PullFailed(e), source)))
         case Ok(digest) => With(s, id, c.(pull := GetBlob(manifest, digest, source))))
    case GetBlob(manifest, digest, source) =>
      if digest !in s.store.blobs then With(s, id, c.(pull := Finished(PullFailed(BlobNotFound), source)))
      else
        var blob := s.store.blobs[digest];
        var intact := lib.hash(blob) == digest;
        var r := if !intact then PullFailed(DigestMismatch) else Package(blob, lib.hash(manifest), digest);
        With(s, id, c.(pull := Finished(r, source)))
    case _ => s
  }

  function Next(lib: Library, s: State, step: Step): State {
    match step
    case NewPush(id, version, tag, layer) =>
      if id in s.clients then s else With(s, id, Pusher(version, tag, layer, StartLayer))
    case NewPull(id, tag) => if id in s.clients then s else With(s, id, Puller(tag, GetManifest))
    case Proceed(id) =>
      if id !in s.clients then s
      else if s.clients[id].Pusher? then Pushing(lib, s, id, s.clients[id])
      else Pulling(lib, s, id, s.clients[id])
    case Abort(id) =>
      if id !in s.clients then s
      else match s.clients[id]
        case Pusher(_, _, _, Published) => s
        case Pusher(_, _, _, _) => With(s, id, s.clients[id].(push := Aborted))
        case Puller(_, _) => With(s, id, s.clients[id].(pull := Gone))
  }

  function Run(lib: Library, steps: seq<Step>): State {
    if steps == [] then EMPTY else Next(lib, Run(lib, steps[..|steps| - 1]), steps[|steps| - 1])
  }

  // ----- what every interleaving keeps -----

  predicate Stored(lib: Library, store: Store, bytes: string) {
    lib.hash(bytes) in store.blobs
  }

  /** `manifest` is the one client `id` published under `tag`, and its blobs are there. */
  predicate PublishedBy(lib: Library, s: State, id: nat, tag: string, manifest: string) {
    && id in s.clients && s.clients[id].Pusher? && s.clients[id].push.Published? && s.clients[id].tag == tag
    && manifest == ComputePublishDigests(lib, s.clients[id].version, s.clients[id].layer).manifestBytes
    && Stored(lib, s.store, s.clients[id].layer)
    && Stored(lib, s.store, lib.config(s.clients[id].version))
  }

  predicate ClientOk(lib: Library, s: State, c: Client) {
    match c
    case Pusher(version, _, layer, pc) =>
      && (pc.StartConfig? || pc.PutConfig? || pc.PutTag? ==> Stored(lib, s.store, layer))
      && (pc.PutTag? ==> Stored(lib, s.store, lib.config(version)))
    case Puller(tag, GetBlob(manifest, digest, source)) =>
      PublishedBy(lib, s, source, tag, manifest) && digest == lib.hash(s.clients[source].layer)
    case Puller(tag, Finished(r, source)) =>
      (match r
       case PullFailed(e) => e == TagNotFound
       case Package(tarball, manifestDigest, layerDigest) =>
         && lib.hash(tarball) == layerDigest
         && source in s.clients && s.clients[source].Pusher? && s.clients[source].push.Published?
         && s.clients[source].tag == tag && layerDigest == lib.hash(s.clients[source].layer)
         && (var c := s.clients[source];
             manifestDigest == ComputePublishDigests(lib, c.version, c.layer).manifestDigest))
    case _ => true
  }

  predicate BlobsOk(lib: Library, store: Store) {
    forall d :: d in store.blobs ==> lib.hash(store.blobs[d]) == d
  }

  predicate TagsOk(lib: Library, s: State) {
    s.owner.Keys == s.store.tags.Keys &&
    forall t :: t in s.store.tags ==> PublishedBy(lib, s, s.owner[t], t, s.store.tags[t])
  }

  predicate ClientsOk(lib: Library, s: State) {
    forall id :: id in s.clients ==> ClientOk(lib, s, s.clients[id])
  }

  predicate Inv(lib: Library, s: State) { BlobsOk(lib, s.store) && TagsOk(lib, s) && ClientsOk(lib, s) }

  lemma {:induction false} ManifestNamesLayer(lib: Library, version: string, layer: string)
    requires Lawful(lib)
    ensures LayerOf(lib, ComputePublishDigests(lib, version, layer).manifestBytes) == Ok(lib.hash(layer))
  {
    var m := OciManifest(2, MANIFEST_TYPE,
      Descriptor(CONFIG_TYPE, lib.hash(lib.config(version)), |lib.config(version)|),
      [Descriptor(LAYER_TYPE, lib.hash(layer), |layer|)]);
    assert lib.fromJson(lib.toJson(m)) ==
      Some(seq(|m.layers|, i requires 0 <= i < |m.layers| => Layer(m.layers[i].mediaType, m.layers[i].digest)));
    assert seq(|m.layers|, i requires 0 <= i < |m.layers| => Layer(m.layers[i].mediaType, m.layers[i].digest))
        == [Layer(LAYER_TYPE, lib.hash(layer))];
  }

  /** The next state keeps every blob, every client's identity and every publication. */
  predicate Grows(s: State, t: State) {
    && s.store.blobs.Keys <= t.store.blobs.Keys
    && forall id :: id in s.clients ==> id in t.clients && SameClient(s.clients[id], t.clients[id])
  }

  predicate SameClient(c: Client, d: Client) {
    match c
    case Pusher(v, t, l, pc) =>
      d.Pusher? && d.version == v && d.tag == t && d.layer == l && (pc.Published? ==> d.push.Published?)
    case Puller(t, _) => d.Puller? && d.wanted == t
  }

  lemma {:induction false} PushGrows(lib: Library, s: State, id: nat)
    requires id in s.clients && s.clients[id].Pusher?
    ensures Grows(s, Pushing(lib, s, id, s.clients[id]))
  {
  }

  lemma {:induction false} PullGrows(lib: Library, s: State, id: nat)
    requires id in s.clients && s.clients[id].Puller?
    ensures Grows(s, Pulling(lib, s, id, s.clients[id]))
  {
  }

  lemma {:induction false} PublicationLasts(lib: Library, s: State, t: State, id: nat, tag: string, manifest: string)
    requires Grows(s, t) && PublishedBy(lib, s, id, tag, manifest)
    ensures PublishedBy(lib, t, id, tag, manifest)
  {
  }

  /** A client that does not move stays in order. */
  lemma {:induction false} ClientLasts(lib: Library, s: State, t: State, c: Client)
    requires Grows(s, t) && ClientOk(lib, s, c)
    ensures ClientOk(lib, t, c)
  {
    match c {
      case Puller(tag, GetBlob(manifest, digest, source)) => PublicationLasts(lib, s, t, source, tag, manifest);
      case _ =>
    }
  }

  lemma {:induction false} OthersLast(lib: Library, s: State, t: State, id: nat)
    requires Grows(s, t) && ClientsOk(lib, s)
    requires forall other :: other in t.clients && other != id ==>
               other in s.clients && t.clients[other] == s.clients[other]
    requires id in t.clients ==> ClientOk(lib, t, t.clients[id])
    ensures ClientsOk(lib, t)
  {
    forall other | other in t.clients && other != id ensures ClientOk(lib, t, t.clients[other]) {
      ClientLasts(lib, s, t, s.clients[other]);
    }
  }

  lemma {:induction false} TagsLast(lib: Library, s: State, t: State)
    requires Grows(s, t) && TagsOk(lib, s) && t.owner == s.owner && t.store.tags == s.store.tags
    ensures TagsOk(lib, t)
  {
    forall tag | tag in t.store.tags ensures PublishedBy(lib, t, t.owner[tag], tag, t.store.tags[tag]) {
      PublicationLasts(lib, s, t, s.owner[tag], tag, s.store.tags[tag]);
    }
  }

  lemma {:induction false} UploadKeepsInv(lib: Library, s: State, id: nat)
    requires Inv(lib, s) && id in s.clients && s.clients[id].Pusher? && !s.clients[id].push.PutTag?
    ensures Inv(lib, Pushing(lib, s, id, s.clients[id]))
  {
    var t := Pushing(lib, s, id, s.clients[id]);
    PushGrows(lib, s, id);
    TagsLast(lib, s, t);
    assert ClientOk(lib, s, s.clients[id]);
    assert ClientOk(lib, t, t.clients[id]);
    OthersLast(lib, s, t, id);
  }

  lemma {:induction false} PutTagKeepsInv(lib: Library, s: State, id: nat)
    requires Inv(lib, s) && id in s.clients && s.clients[id].Pusher? && s.clients[id].push.PutTag?
    ensures Inv(lib, Pushing(lib, s, id, s.clients[id]))
  {
    var c := s.clients[id];
    var t := Pushing(lib, s, id, c);
    PushGrows(lib, s, id);
    assert ClientOk(lib, s, c);
    OthersLast(lib, s, t, id);
    assert PublishedBy(lib, t, id, c.tag, t.store.tags[c.tag]);
    forall tag | tag in t.store.tags && tag != c.tag
      ensures PublishedBy(lib, t, t.owner[tag], tag, t.store.tags[tag])
    {
      PublicationLasts(lib, s, t, s.owner[tag], tag, s.store.tags[tag]);
    }
  }

  lemma {:induction false} PullKeepsInv(lib: Library, s: State, id: nat)
    requires Lawful(lib) && Inv(lib, s) && id in s.clients && s.clients[id].Puller?
    ensures Inv(lib, Pulling(lib, s, id, s.clients[id]))
  {
    var c := s.clients[id];
    var t := Pulling(lib, s, id, c);
    PullGrows(lib, s, id);
    if c.pull.GetManifest? && c.wanted in s.store.tags {
      var source := s.owner[c.wanted];
      assert PublishedBy(lib, s, source, c.wanted, s.store.tags[c.wanted]);
      ManifestNamesLayer(lib, s.clients[source].version, s.clients[source].layer);
      PublicationLasts(lib, s, t, source, c.wanted, s.store.tags[c.wanted]);
    }
    OthersLast(lib, s, t, id);
    TagsLast(lib, s, t);
  }

  /** Clients that claim nothing: new ones, and those that gave up. */
  predicate Idle(c: Client) {
    match c
    case Pusher(_, _, _, pc) => pc.StartLayer? || pc.Aborted?
    case Puller(_, pc) => pc.GetManifest? || pc.Gone?
  }

  lemma {:induction false} IdleKeepsInv(lib: Library, s: State, id: nat, c: Client)
    requires Inv(lib, s) && Idle(c) && (id in s.clients ==> SameClient(s.clients[id], c))
    ensures Inv(lib, With(s, id, c))
  {
    var t := With(s, id, c);
    assert Grows(s, t);
    assert ClientOk(lib, t, c);
    OthersLast(lib, s, t, id);
    TagsLast(lib, s, t);
  }

  lemma {:induction false} ArrivalsAndDeathsKeepInv(lib: Library, s: State, step: Step)
    requires Inv(lib, s) && !step.Proceed?
    ensures Inv(lib, Next(lib, s, step))
  {
    match step {
      case NewPush(id, version, tag, layer) =>
        if id !in s.clients {
          IdleKeepsInv(lib, s, id, Pusher(version, tag, layer, StartLayer));
        }
      case NewPull(id, tag) =>
        if id !in s.clients {
          IdleKeepsInv(lib, s, id, Puller(tag, GetManifest));
        }
      case Abort(id) =>
        if id in s.clients {
          match s.clients[id] {
            case Pusher(_, _, _, pc) =>
              if !pc.Published? {
                IdleKeepsInv(lib, s, id, s.clients[id].(push := Aborted));
              }
            case Puller(_, _) => IdleKeepsInv(lib, s, id, s.clients[id].(pull := Gone));
          }
        }
    }
  }

  lemma {:induction false} StepKeepsInv(lib: Library, s: State, step: Step)
    requires Lawful(lib) && Inv(lib, s)
    ensures Inv(lib, Next(lib, s, step))
  {
    if !step.Proceed? {
      ArrivalsAndDeathsKeepInv(lib, s, step);
    } else if step.id in s.clients {
      if s.clients[step.id].Puller? {
        PullKeepsInv(lib, s, step.id);
      } else if s.clients[step.id].push.PutTag? {
        PutTagKeepsInv(lib, s, step.id);
      } else {
        UploadKeepsInv(lib, s, step.id);
      }
    }
  }

  lemma {:induction false} EveryRunKeepsInv(lib: Library, steps: seq<Step>)
    requires Lawful(lib)
    ensures Inv(lib, Run(lib, steps))
  {
    if steps != [] {
      var init := steps[..|steps| - 1];
      EveryRunKeepsInv(lib, init);
      StepKeepsInv(lib, Run(lib, init), steps[|steps| - 1]);
    }
  }

  // ----- the promises -----

  /** Whenever a tag is visible, its manifest is read, names a stored layer, and that layer
      hashes to the digest the manifest declares: a pull that starts and ends there succeeds. */
  lemma {:induction false} VisibleTagsArePullable(lib: Library, steps: seq<Step>, tag: string)
    requires Lawful(lib) && tag in Run(lib, steps).store.tags
    ensures PullResult(lib, Run(lib, steps).store, tag).Package?
  {
    EveryRunKeepsInv(lib, steps);
    var s := Run(lib, steps);
    assert PublishedBy(lib, s, s.owner[tag], tag, s.store.tags[tag]);
    ManifestNamesLayer(lib, s.clients[s.owner[tag]].version, s.clients[s.owner[tag]].layer);
  }

  /** No interleaving makes a pull report a bad manifest, a missing blob or a digest
      mismatch: it can only come before the first publication. */
  lemma {:induction false} PullsOnlyMissTags(lib: Library, steps: seq<Step>, id: nat)
    requires Lawful(lib) && id in Run(lib, steps).clients
    requires Run(lib, steps).clients[id].Puller? && Run(lib, steps).clients[id].pull.Finished?
    ensures Run(lib, steps).clients[id].pull.result.Package? ||
            Run(lib, steps).clients[id].pull.result == PullFailed(TagNotFound)
  {
    EveryRunKeepsInv(lib, steps);
    assert ClientOk(lib, Run(lib, steps), Run(lib, steps).clients[id]);
  }

  /** What a push leaves behind when nothing comes between its requests. */
  function PushedStore(lib: Library, s: Store, version: string, tag: string, layer: string): Store {
    var d := ComputePublishDigests(lib, version, layer);
    Store(s.blobs[d.layerDigest := layer][d.configDigest := d.configBytes], s.tags[tag := d.manifestBytes])
  }

  function ProceedTimes(lib: Library, s: State, id: nat, n: nat): State {
    if n == 0 then s else Next(lib, ProceedTimes(lib, s, id, n - 1), Proceed(id))
  }

  /** The five requests of the interleaved push, undisturbed, do what the method does. */
  lemma {:induction false} UndisturbedPush(lib: Library, s: State, id: nat)
    requires id in s.clients && s.clients[id].Pusher? && s.clients[id].push.StartLayer?
    ensures
      var c := s.clients[id];
      ProceedTimes(lib, s, id, 5).store == PushedStore(lib, s.store, c.version, c.tag, c.layer)
  {
    var c := s.clients[id];
    var d := ComputePublishDigests(lib, c.version, c.layer);
    var s1 := ProceedTimes(lib, s, id, 1);
    assert ProceedTimes(lib, s, id, 0) == s && s1 == With(s, id, c.(push := PutLayer));
    var s2 := ProceedTimes(lib, s, id, 2);
    assert s2.store == PutBlob(s.store, c.layer, d.layerDigest) && s2.clients[id] == c.(push := StartConfig);
    var s3 := ProceedTimes(lib, s, id, 3);
    assert s3.store == s2.store && s3.clients[id] == c.(push := PutConfig);
    var s4 := ProceedTimes(lib, s, id, 4);
    assert s4.store == PutBlob(s2.store, d.configBytes, d.configDigest) && s4.clients[id] == c.(push := PutTag);
  }

  /** A pull right after a push gives back the layer and the digests the push reported. */
  lemma {:induction false} PullAfterPush(lib: Library, s: Store, version: string, tag: string, layer: string)
    requires Lawful(lib) && CollisionFree(lib)
    ensures
      var d := ComputePublishDigests(lib, version, layer);
      PullResult(lib, PushedStore(lib, s, version, tag, layer), tag) == Package(layer, d.manifestDigest, d.layerDigest)
  {
    ManifestNamesLayer(lib, version, layer);
  }

  /** The pusher a tag belongs to is the last whose manifest was put under it. */
  function LastToPut(lib: Library, steps: seq<Step>, tag: string): Option<nat> {
    if steps == [] then None
    else
      var init, last := steps[..|steps| - 1], steps[|steps| - 1];
      var s := Run(lib, init);
      if last.Proceed? && last.id in s.clients && s.clients[last.id].Pusher?
         && s.clients[last.id].push.PutTag? && s.clients[last.id].tag == tag
      then Some(last.id) else LastToPut(lib, init, tag)
  }

  lemma {:induction false} OwnerPutLast(lib: Library, steps: seq<Step>, tag: string)
    ensures LastToPut(lib, steps, tag) ==
      if tag in Run(lib, steps).owner then Some(Run(lib, steps).owner[tag]) else None
  {
    if steps != [] {
      OwnerPutLast(lib, steps[..|steps| - 1], tag);
    }
  }

  /** A pull that is past its manifest read it at some step `k`, from the pusher who was then
      the last to have put one under the tag. */
  lemma {:induction false} PullReadsLastPut(lib: Library, steps: seq<Step>, id: nat) returns (k: nat)
    requires Lawful(lib) && id in Run(lib, steps).clients
    requires Run(lib, steps).clients[id].Puller? && Past(Run(lib, steps).clients[id].pull)
    ensures k < |steps| && steps[k] == Proceed(id)
    ensures id in Run(lib, steps[..k]).clients
    ensures Run(lib, steps[..k]).clients[id] == Puller(Run(lib, steps).clients[id].wanted, GetManifest)
    ensures LastToPut(lib, steps[..k], Run(lib, steps).clients[id].wanted) ==
            Some(Run(lib, steps).clients[id].pull.source)
    decreases |steps|
  {
    var init := steps[..|steps| - 1];
    if id in Run(lib, init).clients && IsPast(Run(lib, init).clients[id]) {
      KeepsWhatItRead(lib, init, steps[|steps| - 1], id);
      k := PullReadsLastPut(lib, init, id);
      assert init[..k] == steps[..k];
    } else {
      k := |steps| - 1;
      ReadsJustNow(lib, init, steps[|steps| - 1], id);
    }
  }

  lemma {:induction false} KeepsWhatItRead(lib: Library, init: seq<Step>, last: Step, id: nat)
    requires Lawful(lib) && id in Run(lib, init).clients && IsPast(Run(lib, init).clients[id])
    requires id in Next(lib, Run(lib, init), last).clients && IsPast(Next(lib, Run(lib, init), last).clients[id])
    ensures
      var c, d := Run(lib, init).clients[id], Next(lib, Run(lib, init), last).clients[id];
      c.wanted == d.wanted && c.pull.source == d.pull.source
  {
    EveryRunKeepsInv(lib, init);
    PastStep(lib, Run(lib, init), last, id);
  }

  lemma {:induction false} ReadsJustNow(lib: Library, init: seq<Step>, last: Step, id: nat)
    requires Lawful(lib) && !(id in Run(lib, init).clients && IsPast(Run(lib, init).clients[id]))
    requires id in Next(lib, Run(lib, init), last).clients && IsPast(Next(lib, Run(lib, init), last).clients[id])
    ensures
      var d := Next(lib, Run(lib, init), last).clients[id];
      && last == Proceed(id) && id in Run(lib, init).clients
      && Run(lib, init).clients[id] == Puller(d.wanted, GetManifest)
      && LastToPut(lib, init, d.wanted) == Some(d.pull.source)
  {
    EveryRunKeepsInv(lib, init);
    PastStep(lib, Run(lib, init), last, id);
    OwnerPutLast(lib, init, Next(lib, Run(lib, init), last).clients[id].wanted);
  }

  predicate IsPast(c: Client) { c.Puller? && Past(c.pull) }

  /** A pull comes past its manifest by reading it, and keeps to whom it read. */
  lemma {:induction false} PastStep(lib: Library, s: State, step: Step, id: nat)
    requires TagsOk(lib, s) && id in Next(lib, s, step).clients && IsPast(Next(lib, s, step).clients[id])
    ensures id in s.clients && s.clients[id].Puller? && s.clients[id].wanted == Next(lib, s, step).clients[id].wanted
    ensures if Past(s.clients[id].pull) then s.clients[id].pull.source == Next(lib, s, step).clients[id].pull.source
      else && step == Proceed(id) && s.clients[id].pull == GetManifest && s.clients[id].wanted in s.owner
           && s.owner[s.clients[id].wanted] == Next(lib, s, step).clients[id].pull.source
  {
    if step.id != id {
      OthersUntouched(lib, s, step, id);
    } else if step.Proceed? && id in s.clients && s.clients[id].Puller? {
      PullMoves(lib, s, id);
    } else if step.Proceed? && id in s.clients {
      PushGrows(lib, s, id);
    }
  }

  lemma {:induction false} OthersUntouched(lib: Library, s: State, step: Step, id: nat)
    requires step.id != id
    ensures id in Next(lib, s, step).clients <==> id in s.clients
    ensures id in s.clients ==> Next(lib, s, step).clients[id] == s.clients[id]
  {
    if step.Proceed? && step.id in s.clients {
      if s.clients[step.id].Pusher? {
        assert Pushing(lib, s, step.id, s.clients[step.id]).clients - {step.id} == s.clients - {step.id};
      } else {
        assert Pulling(lib, s, step.id, s.clients[step.id]).clients - {step.id} == s.clients - {step.id};
      }
    }
  }

  lemma {:induction false} PullMoves(lib: Library, s: State, id: nat)
    requires TagsOk(lib, s) && id in s.clients && s.clients[id].Puller?
    requires IsPast(Pulling(lib, s, id, s.clients[id]).clients[id])
    ensures
      var c, d := s.clients[id], Pulling(lib, s, id, s.clients[id]).clients[id];
      && c.wanted == d.wanted
      && if Past(c.pull) then c.pull.source == d.pull.source
         else c.pull == GetManifest && c.wanted in s.owner && s.owner[c.wanted] == d.pull.source
  {
  }

  /** Holding the manifest, or done with a package. */
  predicate Past(pc: PullPc) { pc.GetBlob? || (pc.Finished? && pc.result.Package?) }

  /** With a collision-free hash a finished pull returns the very bytes of the pusher whose
      manifest was the last put under the tag when the pull read it, and the manifest digest
      that pusher computed offline. */
  lemma {:induction false} PullReturnsWhatWasPushed(lib: Library, steps: seq<Step>, id: nat)
    returns (k: nat, source: nat)
    requires Lawful(lib) && CollisionFree(lib) && id in Run(lib, steps).clients
    requires Run(lib, steps).clients[id].Puller? && Run(lib, steps).clients[id].pull.Finished?
    requires Run(lib, steps).clients[id].pull.result.Package?
    ensures k < |steps| && steps[k] == Proceed(id)
    ensures LastToPut(lib, steps[..k], Run(lib, steps).clients[id].wanted) == Some(source)
    ensures
      var s := Run(lib, steps);
      var result := s.clients[id].pull.result;
      && source in s.clients && s.clients[source].Pusher? && s.clients[source].tag == s.clients[id].wanted
      && s.clients[source].push.Published?
      && result.tarball == s.clients[source].layer
      && result.manifestDigest
         == ComputePublishDigests(lib, s.clients[source].version, s.clients[source].layer).manifestDigest
  {
    k := PullReadsLastPut(lib, steps, id);
    source := Run(lib, steps).clients[id].pull.source;
    EveryRunKeepsInv(lib, steps);
    assert ClientOk(lib, Run(lib, steps), Run(lib, steps).clients[id]);
  }

  lemma {:induction false} RunProceeds(lib: Library, before: seq<Step>, id: nat, n: nat) returns (steps: seq<Step>)
    ensures Run(lib, before + steps) == ProceedTimes(lib, Run(lib, before), id, n)
  {
    if n == 0 {
      steps := [];
      assert before + steps == before;
    } else {
      var init := RunProceeds(lib, before, id, n - 1);
      steps := init + [Proceed(id)];
      assert (before + steps)[..|before + steps| - 1] == before + init;
    }
  }

  /** After any run, a push that nothing disturbs is published, */
  lemma {:induction false} UndisturbedPushPublishes(lib: Library, before: seq<Step>, id: nat, version: string,
                                                    tag: string, layer: string) returns (steps: seq<Step>)
    requires id !in Run(lib, before).clients
    ensures
      var s := Run(lib, before);
      Run(lib, before + steps) == State(PushedStore(lib, s.store, version, tag, layer),
                                        s.clients[id := Pusher(version, tag, layer, Published)], s.owner[tag := id])
  {
    var first := [NewPush(id, version, tag, layer)];
    assert (before + first)[..|before|] == before;
    var started := Run(lib, before + first);
    var rest := RunProceeds(lib, before + first, id, 5);
    PublishesInFive(lib, started, id);
    steps := first + rest;
    assert before + steps == before + first + rest;
    assert Run(lib, before).clients[id := started.clients[id]][id := Pusher(version, tag, layer, Published)]
        == Run(lib, before).clients[id := Pusher(version, tag, layer, Published)];
  }

  /** and a pull of its tag that nothing disturbs gives back its layer. */
  lemma {:induction false} PushThenPull(lib: Library, before: seq<Step>, id: nat, other: nat, version: string,
                                        tag: string, layer: string) returns (steps: seq<Step>)
    requires Lawful(lib) && CollisionFree(lib)
    requires id !in Run(lib, before).clients && other !in Run(lib, before).clients && id != other
    ensures
      var t := Run(lib, before + steps);
      var d := ComputePublishDigests(lib, version, layer);
      && id in t.clients && t.clients[id] == Pusher(version, tag, layer, Published)
      && other in t.clients
      && t.clients[other] == Puller(tag, Finished(Package(layer, d.manifestDigest, d.layerDigest), id))
  {
    var push := UndisturbedPushPublishes(lib, before, id, version, tag, layer);
    var pull := UndisturbedPull(lib, before + push, other, id, version, tag, layer, Run(lib, before).store);
    steps := push + pull;
    assert before + steps == before + push + pull;
  }

  lemma {:induction false} UndisturbedPull(lib: Library, before: seq<Step>, id: nat, pusher: nat, version: string,
                                           tag: string, layer: string, earlier: Store) returns (steps: seq<Step>)
    requires Lawful(lib) && CollisionFree(lib)
    requires id !in Run(lib, before).clients && tag in Run(lib, before).owner && Run(lib, before).owner[tag] == pusher
    requires Run(lib, before).store == PushedStore(lib, earlier, version, tag, layer)
    ensures
      var d := ComputePublishDigests(lib, version, layer);
      Run(lib, before + steps).clients == Run(lib, before).clients[
        id := Puller(tag, Finished(Package(layer, d.manifestDigest, d.layerDigest), pusher))]
  {
    var first := [NewPull(id, tag)];
    assert (before + first)[..|before|] == before;
    var started := Run(lib, before + first);
    assert started == With(Run(lib, before), id, Puller(tag, GetManifest));
    var rest := RunProceeds(lib, before + first, id, 2);
    PullsInTwo(lib, started, id, pusher, version, layer);
    steps := first + rest;
    assert before + steps == before + first + rest;
  }

  lemma {:induction false} PublishesInFive(lib: Library, s: State, id: nat)
    requires id in s.clients && s.clients[id].Pusher? && s.clients[id].push.StartLayer?
    ensures
      var c, t := s.clients[id], ProceedTimes(lib, s, id, 5);
      && t.store == PushedStore(lib, s.store, c.version, c.tag, c.layer)
      && t.owner == s.owner[c.tag := id] && t.clients == s.clients[id := c.(push := Published)]
  {
    UndisturbedPush(lib, s, id);
    var c := s.clients[id];
    assert ProceedTimes(lib, s, id, 0) == s;
    assert ProceedTimes(lib, s, id, 1).clients == s.clients[id := c.(push := PutLayer)];
    assert ProceedTimes(lib, s, id, 2).clients == s.clients[id := c.(push := StartConfig)];
    assert ProceedTimes(lib, s, id, 3).clients == s.clients[id := c.(push := PutConfig)];
    assert ProceedTimes(lib, s, id, 4).clients == s.clients[id := c.(push := PutTag)];
    assert ProceedTimes(lib, s, id, 4).owner == s.owner;
  }

  lemma {:induction false} PullsInTwo(lib: Library, s: State, id: nat, pusher: nat, version: string, layer: string)
    requires Lawful(lib) && CollisionFree(lib) && id in s.clients && s.clients[id].Puller?
    requires s.clients[id].pull == GetManifest && s.clients[id].wanted in s.owner
    requires s.owner[s.clients[id].wanted] == pusher
    requires exists earlier: Store :: s.store == PushedStore(lib, earlier, version, s.clients[id].wanted, layer)
    ensures
      var c, d := s.clients[id], ComputePublishDigests(lib, version, layer);
      ProceedTimes(lib, s, id, 2).clients ==
        s.clients[id := c.(pull := Finished(Package(layer, d.manifestDigest, d.layerDigest), pusher))]
  {
    var c, d := s.clients[id], ComputePublishDigests(lib, version, layer);
    var earlier :| s.store == PushedStore(lib, earlier, version, c.wanted, layer);
    PullAfterPush(lib, earlier, version, c.wanted, layer);
    ManifestNamesLayer(lib, version, layer);
    assert ProceedTimes(lib, s, id, 0) == s;
    var one := ProceedTimes(lib, s, id, 1);
    assert one == With(s, id, c.(pull := GetBlob(d.manifestBytes, d.layerDigest, pusher)));
  }
}

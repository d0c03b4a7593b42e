/** The content-addressed cache: blobs unpacked in private and moved into their slot in one
    rename, by any number of processes at once. */
module OciCache {
  import opened Text
  import opened Numbers

  datatype Format = GzipTar | PlainTar

  /** One archive member, and how many bytes reading it takes off the decompressed stream. */
  datatype Member = Member(path: string, content: string, size: nat)

  /** The members before the end, or before the point where the archive breaks off. */
  datatype Archive = Archive(members: seq<Member>, intact: bool)

  type Tree = map<string, string>

  /** Slots by digest. */
  type Slots = map<string, Tree>

  /** SHA-256, and decompression with tar. */
  datatype Library = Library(hash: string -> string, decode: (Format, string) -> Archive)

  // ----- the decompression cap -----

  const MAX_DECOMPRESSED_BYTES: nat := 2 * 1024 * 1024 * 1024

  function Sum(sizes: seq<nat>): nat {
    if sizes == [] then 0 else Sum(sizes[..|sizes| - 1]) + sizes[|sizes| - 1]
  }

  /** A reader over a stream; `chunk` is how much the inner reader chooses to hand over. */
  class CappedReader {
    var inner: string
    var read: nat
    const limit: nat

    constructor (inner: string, limit: nat)
      ensures this.inner == inner && read == 0 && this.limit == limit
    {
      this.inner, this.read, this.limit := inner, 0, limit;
    }

    method Read(capacity: nat, chunk: nat) returns (buf: Option<string>)
      requires read <= U64_MAX && chunk <= capacity && chunk <= |inner|
      modifies this
      ensures read == SaturatingAdd(old(read), chunk)
      ensures inner == old(inner)[chunk..]
      ensures buf == if read > limit then None else Some(old(inner)[..chunk])
    {
      var n := chunk;
      var bytes := inner[..n];
      inner := inner[n..];
      read := SaturatingAdd(read, n);
      buf := if read > limit then None else Some(bytes);
    }
  }

  /** The counter after reads of these sizes. */
  function Counter(sizes: seq<nat>): nat {
    if sizes == [] then 0 else SaturatingAdd(Counter(sizes[..|sizes| - 1]), sizes[|sizes| - 1])
  }

  predicate Trips(sizes: seq<nat>, limit: nat) {
    exists k :: 0 <= k <= |sizes| && Counter(sizes[..k]) > limit
  }

  lemma {:induction false} CounterSaturates(sizes: seq<nat>)
    ensures Counter(sizes) == if Sum(sizes) <= U64_MAX then Sum(sizes) else U64_MAX
  {
    if sizes != [] {
      CounterSaturates(sizes[..|sizes| - 1]);
    }
  }

  lemma {:induction false} SumGrows(sizes: seq<nat>, k: nat)
    requires k <= |sizes|
    ensures Sum(sizes[..k]) <= Sum(sizes)
    decreases |sizes|
  {
    if k == |sizes| {
      assert sizes[..k] == sizes;
    } else {
      var init := sizes[..|sizes| - 1];
      assert init[..k] == sizes[..k];
      SumGrows(init, k);
    }
  }

  /** However the stream is cut into reads, the cap trips if and only if the whole stream is
      longer than it; a cap of the counter's own maximum never does. */
  lemma {:induction false} CapTripsExactly(sizes: seq<nat>, limit: nat)
    ensures Trips(sizes, limit) <==> Sum(sizes) > limit && limit < U64_MAX
  {
    CounterSaturates(sizes);
    assert sizes[..|sizes|] == sizes;
    if k :| 0 <= k <= |sizes| && Counter(sizes[..k]) > limit {
      CounterSaturates(sizes[..k]);
      SumGrows(sizes, k);
    }
  }

  // ----- unpacking -----

  function Unpacked(ms: seq<Member>): Tree {
    if ms == [] then map[] else Unpacked(ms[..|ms| - 1])[ms[|ms| - 1].path := ms[|ms| - 1].content]
  }

  function Read(ms: seq<Member>): nat {
    if ms == [] then 0 else SaturatingAdd(Read(ms[..|ms| - 1]), ms[|ms| - 1].size)
  }

  /** Member `i` is the last under its path. */
  predicate LastUnder(ms: seq<Member>, i: nat) {
    i < |ms| && forall j :: i < j < |ms| ==> ms[j].path != ms[i].path
  }

  /** The tree has the paths of the members, */
  lemma {:induction false} UnpackedHasPaths(ms: seq<Member>, path: string)
    ensures path in Unpacked(ms) <==> exists i :: 0 <= i < |ms| && ms[i].path == path
  {
    if ms != [] {
      var init := ms[..|ms| - 1];
      UnpackedHasPaths(init, path);
      assert forall i :: 0 <= i < |init| ==> init[i] == ms[i];
    }
  }

  /** each with what the last member under it holds. */
  lemma {:induction false} UnpackedHoldsLast(ms: seq<Member>, i: nat)
    requires LastUnder(ms, i)
    ensures ms[i].path in Unpacked(ms) && Unpacked(ms)[ms[i].path] == ms[i].content
  {
    var init := ms[..|ms| - 1];
    if i < |init| {
      assert ms[|init|].path != ms[i].path;
      UnpackedHoldsLast(init, i);
    }
  }

  function Sizes(ms: seq<Member>): (sizes: seq<nat>)
    ensures |sizes| == |ms|
  {
    seq(|ms|, i requires 0 <= i < |ms| => ms[i].size)
  }

  /** Unpacking reads the sum of the members' sizes, or as much as the counter holds. */
  lemma {:induction false} ReadIsSum(ms: seq<Member>)
    ensures Read(ms) == if Sum(Sizes(ms)) <= U64_MAX then Sum(Sizes(ms)) else U64_MAX
  {
    CounterSaturates(Sizes(ms));
    ReadIsCounter(ms);
  }

  lemma {:induction false} ReadIsCounter(ms: seq<Member>)
    ensures Read(ms) == Counter(Sizes(ms))
  {
    if ms != [] {
      ReadIsCounter(ms[..|ms| - 1]);
      assert Sizes(ms)[..|ms| - 1] == Sizes(ms[..|ms| - 1]);
    }
  }

  /** `t` is all of what `blob` unpacks to, within the cap. */
  predicate Complete(lib: Library, limit: nat, format: Format, blob: string, t: Tree) {
    var a := lib.decode(format, blob);
    a.intact && t == Unpacked(a.members) && Read(a.members) <= limit
  }

  /** The slot holds a complete unpacking of some blob with that digest. */
  ghost predicate Whole(lib: Library, limit: nat, digest: string, t: Tree) {
    exists format, blob :: lib.hash(blob) == digest && Complete(lib, limit, format, blob, t)
  }

  ghost predicate AllWhole(lib: Library, limit: nat, slots: Slots) {
    forall d :: d in slots ==> Whole(lib, limit, d, slots[d])
  }

  /** Slots once filled stay as they are; an empty directory may still be replaced. */
  predicate Evolves(before: Slots, after: Slots) {
    forall d :: d in before ==> d in after && (before[d] != map[] ==> after[d] == before[d])
  }

  /** A rename onto an absent or empty directory succeeds, onto a filled one fails. */
  function Renamed(slots: Slots, digest: string, t: Tree): Slots {
    if digest in slots && slots[digest] != map[] then slots else slots[digest := t]
  }

  class Cache {
    var slots: Slots

    constructor ()
      ensures slots == map[]
    {
      slots := map[];
    }

    /** An extraction under the ceiling every fetch uses. */
    method ExtractBlob(lib: Library, blob: string, format: Format, meanwhile: Slots) returns (ok: bool)
      requires AllWhole(lib, MAX_DECOMPRESSED_BYTES, slots)
      requires Evolves(slots, meanwhile) && AllWhole(lib, MAX_DECOMPRESSED_BYTES, meanwhile)
      modifies this
      ensures AllWhole(lib, MAX_DECOMPRESSED_BYTES, slots) && Evolves(old(slots), slots)
      ensures ok ==>
                lib.hash(blob) in slots && Whole(lib, MAX_DECOMPRESSED_BYTES, lib.hash(blob), slots[lib.hash(blob)])
      ensures ok == (lib.hash(blob) in old(slots)
                     || (var d := lib.decode(format, blob); d.intact && Read(d.members) <= MAX_DECOMPRESSED_BYTES))
      ensures slots ==
        if lib.hash(blob) in old(slots) then old(slots)
        else if ok then Renamed(meanwhile, lib.hash(blob), Unpacked(lib.decode(format, blob).members))
        else meanwhile
    {
      ok := ExtractBlobCapped(lib, blob, format, MAX_DECOMPRESSED_BYTES, meanwhile);
    }

    /** One extraction; `meanwhile` is what other processes have made of the slots by the
        time this one reaches its rename. */
    method ExtractBlobCapped(lib: Library, blob: string, format: Format, limit: nat, meanwhile: Slots)
      returns (ok: bool)
      requires AllWhole(lib, limit, slots)
      requires Evolves(slots, meanwhile) && AllWhole(lib, limit, meanwhile)
      modifies this
      ensures AllWhole(lib, limit, slots) && Evolves(old(slots), slots)
      ensures ok ==> lib.hash(blob) in slots && Whole(lib, limit, lib.hash(blob), slots[lib.hash(blob)])
      ensures ok == (lib.hash(blob) in old(slots)
                     || (lib.decode(format, blob).intact && Read(lib.decode(format, blob).members) <= limit))
      ensures slots ==
        if lib.hash(blob) in old(slots) then old(slots)
        else if ok then Renamed(meanwhile, lib.hash(blob), Unpacked(lib.decode(format, blob).members))
        else meanwhile
    {
      var dest := lib.hash(blob);
      if dest in slots {
        return true;
      }
      var archive := lib.decode(format, blob);
      var staging: Tree := map[];
      var read := 0;
      var i := 0;
      var tripped := false;
      while i < |archive.members| && !tripped
        invariant i <= |archive.members|
        invariant staging == Unpacked(archive.members[..i]) || tripped
        invariant read == Read(archive.members[..i]) && (tripped <==> read > limit)
      {
        var m := archive.members[i];
        assert archive.members[..i + 1][..i] == archive.members[..i];
        read := SaturatingAdd(read, m.size);
        tripped := read > limit;
        if !tripped {
          staging := staging[m.path := m.content];
        }
        i := i + 1;
      }
      slots := meanwhile;
      ReadGrows(archive.members, i);
      if tripped || !archive.intact {
        return false;
      }
      assert archive.members[..i] == archive.members;
      assert Complete(lib, limit, format, blob, staging);
      assert Whole(lib, limit, dest, staging);
      slots := Renamed(slots, dest, staging);
      ok := true;
    }
  }

  lemma {:induction false} ReadGrows(ms: seq<Member>, k: nat)
    requires k <= |ms|
    ensures Read(ms[..k]) <= Read(ms)
    decreases |ms|
  {
    if k == |ms| {
      assert ms[..k] == ms;
    } else {
      var init := ms[..|ms| - 1];
      assert init[..k] == ms[..k];
      ReadGrows(init, k);
    }
  }

  // ----- any number of processes -----

  datatype Pc =
    | Checking
    | Staging(done: nat, tree: Tree, read: nat)
    | Landed
    | Failed

  /** A process with a verified blob to put in the slot of its digest. */
  datatype Process = Process(blob: string, format: Format, pc: Pc)

  datatype State = State(slots: Slots, procs: map<nat, Process>)

  const EMPTY := State(map[], map[])

  datatype Action = Spawn(blob: string, format: Format) | Check | Unpack | Rename | Fail | Die

  datatype Step = Step(pid: nat, action: Action)

  function With(s: State, pid: nat, p: Process): State { s.(procs := s.procs[pid := p]) }

  function Next(lib: Library, limit: nat, s: State, step: Step): State {
    var pid := step.pid;
    if step.action.Spawn? then
      if pid in s.procs then s else With(s, pid, Process(step.action.blob, step.action.format, Checking))
    else if pid !in s.procs then s
    else
      var p := s.procs[pid];
      var archive := lib.decode(p.format, p.blob);
      match (step.action, p.pc)
      case (Check, Checking) =>
        With(s, pid, p.(pc := if lib.hash(p.blob) in s.slots then Landed else Staging(0, map[], 0)))
      case (Unpack, Staging(done, tree, read)) =>
        if done >= |archive.members| then s
        else
          var m := archive.members[done];
          var total := SaturatingAdd(read, m.size);
          With(s, pid, p.(pc := if total > limit then Failed else Staging(done + 1, tree[m.path := m.content], total)))
      case (Rename, Staging(done, tree, _)) =>
        if done < |archive.members| then s
        else if !archive.intact then With(s, pid, p.(pc := Failed))
        else With(s.(slots := Renamed(s.slots, lib.hash(p.blob), tree)), pid, p.(pc := Landed))
      case (Fail, Checking) => With(s, pid, p.(pc := Failed))
      case (Fail, Staging(_, _, _)) => With(s, pid, p.(pc := Failed))
      case (Die, _) => s.(procs := s.procs - {pid})
      case _ => s
  }

  function Run(lib: Library, limit: nat, steps: seq<Step>): State {
    if steps == [] then EMPTY else Next(lib, limit, Run(lib, limit, steps[..|steps| - 1]), steps[|steps| - 1])
  }

  /** What a process has staged is the part it has unpacked; what it reports is there. */
  predicate Honest(lib: Library, limit: nat, slots: Slots, p: Process) {
    var ms := lib.decode(p.format, p.blob).members;
    match p.pc
    case Staging(done, tree, read) =>
      done <= |ms| && tree == Unpacked(ms[..done]) && read == Read(ms[..done]) && read <= limit
    case Landed => lib.hash(p.blob) in slots
    case _ => true
  }

  ghost predicate Inv(lib: Library, limit: nat, s: State) {
    && AllWhole(lib, limit, s.slots)
    && forall pid :: pid in s.procs ==> Honest(lib, limit, s.slots, s.procs[pid])
  }

  /** No interleaving, failure or death ever shows a slot that is not a complete unpacking
      of a blob with its digest. */
  lemma {:induction false} EverySlotIsWhole(lib: Library, limit: nat, steps: seq<Step>)
    ensures Inv(lib, limit, Run(lib, limit, steps))
  {
    if steps != [] {
      var init := steps[..|steps| - 1];
      EverySlotIsWhole(lib, limit, init);
      StepKeepsInv(lib, limit, Run(lib, limit, init), steps[|steps| - 1]);
    }
  }

  lemma {:induction false} StepKeepsInv(lib: Library, limit: nat, s: State, step: Step)
    requires Inv(lib, limit, s)
    ensures Inv(lib, limit, Next(lib, limit, s, step)) && Evolves(s.slots, Next(lib, limit, s, step).slots)
  {
    if step.pid in s.procs && s.procs[step.pid].pc.Staging? && step.action.Unpack? {
      UnpackKeepsInv(lib, limit, s, step.pid);
    } else if step.pid in s.procs && s.procs[step.pid].pc.Staging? && step.action.Rename? {
      RenameKeepsInv(lib, limit, s, step.pid);
    }
  }

  lemma {:induction false} UnpackKeepsInv(lib: Library, limit: nat, s: State, pid: nat)
    requires Inv(lib, limit, s) && pid in s.procs && s.procs[pid].pc.Staging?
    ensures Inv(lib, limit, Next(lib, limit, s, Step(pid, Unpack)))
  {
    var p := s.procs[pid];
    var members := lib.decode(p.format, p.blob).members;
    assert Honest(lib, limit, s.slots, p);
    if p.pc.done < |members| {
      UnpackKeeps(members, p.pc.done);
    }
  }

  lemma {:induction false} RenameKeepsInv(lib: Library, limit: nat, s: State, pid: nat)
    requires Inv(lib, limit, s) && pid in s.procs && s.procs[pid].pc.Staging?
    ensures Inv(lib, limit, Next(lib, limit, s, Step(pid, Rename)))
  {
    var p := s.procs[pid];
    var archive := lib.decode(p.format, p.blob);
    assert Honest(lib, limit, s.slots, p);
    if p.pc.done == |archive.members| && archive.intact {
      assert archive.members[..p.pc.done] == archive.members;
      assert Complete(lib, limit, p.format, p.blob, p.pc.tree);
      RenamedIsWhole(lib, limit, s.slots, lib.hash(p.blob), p.pc.tree);
    }
  }

  lemma {:induction false} RenamedIsWhole(lib: Library, limit: nat, slots: Slots, digest: string, t: Tree)
    requires AllWhole(lib, limit, slots) && Whole(lib, limit, digest, t)
    ensures AllWhole(lib, limit, Renamed(slots, digest, t)) && digest in Renamed(slots, digest, t)
    ensures slots.Keys <= Renamed(slots, digest, t).Keys
  {
  }

  lemma {:induction false} UnpackKeeps(ms: seq<Member>, k: nat)
    requires k < |ms|
    ensures Unpacked(ms[..k + 1]) == Unpacked(ms[..k])[ms[k].path := ms[k].content]
    ensures Read(ms[..k + 1]) == SaturatingAdd(Read(ms[..k]), ms[k].size)
  {
    assert ms[..k + 1][..k] == ms[..k];
  }

  /** What a slot holds once it holds something, it holds for good. */
  lemma {:induction false} SlotsArePermanent(lib: Library, limit: nat, steps: seq<Step>, more: seq<Step>)
    ensures Evolves(Run(lib, limit, steps).slots, Run(lib, limit, steps + more).slots)
    decreases |more|
  {
    if more == [] {
      assert steps + more == steps;
    } else {
      var init := more[..|more| - 1];
      SlotsArePermanent(lib, limit, steps, init);
      assert (steps + more)[..|steps + more| - 1] == steps + init;
      EverySlotIsWhole(lib, limit, steps + init);
      StepKeepsInv(lib, limit, Run(lib, limit, steps + init), more[|more| - 1]);
    }
  }

  ghost predicate CollisionFree(lib: Library) {
    forall a, b :: lib.hash(a) == lib.hash(b) ==> a == b
  }

  /** A blob is an archive in one format at most. */
  ghost predicate OneFormat(lib: Library) {
    forall blob :: !(lib.decode(GzipTar, blob).intact && lib.decode(PlainTar, blob).intact)
  }

  /** A process that succeeds, whether it won the race or lost it, leaves its caller the
      unpacking of the caller's own blob. */
  lemma {:induction false} SuccessYieldsOwnTree(lib: Library, limit: nat, steps: seq<Step>, pid: nat)
    requires CollisionFree(lib) && OneFormat(lib)
    requires pid in Run(lib, limit, steps).procs && Run(lib, limit, steps).procs[pid].pc.Landed?
    ensures
      var s := Run(lib, limit, steps);
      var p := s.procs[pid];
      lib.hash(p.blob) in s.slots &&
      exists format :: Complete(lib, limit, format, p.blob, s.slots[lib.hash(p.blob)])
                       && (lib.decode(p.format, p.blob).intact ==> format == p.format)
  {
    EverySlotIsWhole(lib, limit, steps);
    var s := Run(lib, limit, steps);
    var p := s.procs[pid];
    var d := lib.hash(p.blob);
    var format, blob :| lib.hash(blob) == d && Complete(lib, limit, format, blob, s.slots[d]);
    assert blob == p.blob;
    assert lib.decode(format, blob).intact;
  }

  /** A decompression bomb never lands: a blob has a slot only if it unpacks within the cap. */
  lemma {:induction false} OnlyCappedBlobsLand(lib: Library, limit: nat, steps: seq<Step>, blob: string)
    requires CollisionFree(lib) && lib.hash(blob) in Run(lib, limit, steps).slots
    ensures exists f :: lib.decode(f, blob).intact && Read(lib.decode(f, blob).members) <= limit
  {
    EverySlotIsWhole(lib, limit, steps);
    var slots := Run(lib, limit, steps).slots;
    var f, b :| lib.hash(b) == lib.hash(blob) && Complete(lib, limit, f, b, slots[lib.hash(blob)]);
    assert b == blob;
  }

  // ----- a process that nothing disturbs -----

  function RunFrom(lib: Library, limit: nat, s: State, steps: seq<Step>): State
    decreases |steps|
  {
    if steps == [] then s else RunFrom(lib, limit, Next(lib, limit, s, steps[0]), steps[1..])
  }

  lemma {:induction false} RunGoesOn(lib: Library, limit: nat, before: seq<Step>, more: seq<Step>)
    ensures Run(lib, limit, before + more) == RunFrom(lib, limit, Run(lib, limit, before), more)
    decreases |more|
  {
    if more == [] {
      assert before + more == before;
    } else {
      var next := before + [more[0]];
      assert next[..|next| - 1] == before;
      RunGoesOn(lib, limit, next, more[1..]);
      assert next + more[1..] == before + more;
    }
  }

  predicate Fits(archive: Archive, limit: nat) { archive.intact && Read(archive.members) <= limit }

  lemma {:induction false} UnpacksAndRenames(lib: Library, limit: nat, s: State, pid: nat, done: nat)
      returns (steps: seq<Step>)
    requires pid in s.procs
    requires
      var p := s.procs[pid];
      var ms := lib.decode(p.format, p.blob).members;
      && done <= |ms| && p.pc == Staging(done, Unpacked(ms[..done]), Read(ms[..done])) && Read(ms[..done]) <= limit
    ensures
      var p := s.procs[pid];
      var archive := lib.decode(p.format, p.blob);
      RunFrom(lib, limit, s, steps) ==
        if Fits(archive, limit) then
          With(s.(slots := Renamed(s.slots, lib.hash(p.blob), Unpacked(archive.members))), pid, p.(pc := Landed))
        else With(s, pid, p.(pc := Failed))
    decreases |lib.decode(s.procs[pid].format, s.procs[pid].blob).members| - done
  {
    var p := s.procs[pid];
    var ms := lib.decode(p.format, p.blob).members;
    if done == |ms| {
      steps := [Step(pid, Rename)];
      assert ms[..done] == ms && steps[1..] == [];
    } else {
      var next := Next(lib, limit, s, Step(pid, Unpack));
      UnpackKeeps(ms, done);
      ReadGrows(ms, done + 1);
      if Read(ms[..done + 1]) > limit {
        steps := [Step(pid, Unpack)];
        assert steps[1..] == [];
      } else {
        var rest := UnpacksAndRenames(lib, limit, next, pid, done + 1);
        steps := [Step(pid, Unpack)] + rest;
        assert steps[1..] == rest;
      }
    }
  }

  /** After any run, a new process that nothing disturbs comes to an end with the outcome and the
      slots of the method above: it lands if the slot is there or its archive fits. */
  lemma {:induction false} UndisturbedExtraction(lib: Library, limit: nat, before: seq<Step>, pid: nat,
                                                 blob: string, format: Format) returns (steps: seq<Step>)
    requires pid !in Run(lib, limit, before).procs
    ensures
      var s, t := Run(lib, limit, before), Run(lib, limit, before + steps);
      var there := lib.hash(blob) in s.slots;
      var archive := lib.decode(format, blob);
      && pid in t.procs
      && t.procs[pid] == Process(blob, format, if there || Fits(archive, limit) then Landed else Failed)
      && t.slots == if there || !Fits(archive, limit) then s.slots
                    else Renamed(s.slots, lib.hash(blob), Unpacked(archive.members))
  {
    var s := Run(lib, limit, before);
    var spawned := With(s, pid, Process(blob, format, Checking));
    var checked := Next(lib, limit, spawned, Step(pid, Check));
    var start := [Step(pid, Spawn(blob, format)), Step(pid, Check)];
    assert start[1..] == [Step(pid, Check)] && start[1..][1..] == [];
    assert RunFrom(lib, limit, s, start) == RunFrom(lib, limit, spawned, start[1..]) == checked;
    RunGoesOn(lib, limit, before, start);
    if lib.hash(blob) in s.slots {
      steps := start;
    } else {
      assert lib.decode(format, blob).members[..0] == [];
      var rest := UnpacksAndRenames(lib, limit, checked, pid, 0);
      steps := start + rest;
      RunGoesOn(lib, limit, before + start, rest);
      assert before + steps == before + start + rest;
    }
  }
}

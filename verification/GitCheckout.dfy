/** Checking a commit out into a cache directory, with a sentinel file written last. */
module GitCheckout {
  import opened Text

  // ----- objects -----

  /** What a tree entry names. Links and submodules are skipped; a lost tree is one whose object
      cannot be read, a broken entry any other whose object is missing, or whose name is not
      UTF-8. */
  datatype Node = Blob(data: string) | Sub(entries: seq<Entry>) | LostTree | Skipped | Broken

  datatype Entry = Entry(name: string, node: Node)

  predicate IsSafeComponent(name: string) {
    name != "" && name != "." && name != ".." && '/' !in name && '\\' !in name
  }

  // ----- the checkout directory -----

  /** Relative to the checkout directory. */
  type Path = seq<string>

  const SENTINEL: Path := [".git-checkout-done"]

  datatype Disk = Disk(files: map<Path, string>, dirs: set<Path>)

  datatype Op = Mkdir(path: Path) | Write(path: Path, data: string)

  /** A file cannot be written over a directory, nor a directory made over a file. */
  predicate Conflicts(d: Disk, op: Op) {
    match op case Mkdir(p) => p in d.files case Write(p, _) => p in d.dirs
  }

  function Apply(d: Disk, op: Op): Disk {
    match op
    case Mkdir(p) => d.(dirs := d.dirs + {p})
    case Write(p, data) => d.(files := d.files[p := data])
  }

  predicate SentinelExists(d: Disk) { SENTINEL in d.files || SENTINEL in d.dirs }

  datatype Outcome = Outcome(disk: Disk, ok: bool)

  /** The operations in order, up to the first that conflicts. */
  function RunOps(d: Disk, ops: seq<Op>): Outcome
    decreases ops
  {
    if ops == [] then Outcome(d, true)
    else if Conflicts(d, ops[0]) then Outcome(d, false)
    else RunOps(Apply(d, ops[0]), ops[1..])
  }

  lemma {:induction false} RunOpsAppend(d: Disk, a: seq<Op>, b: seq<Op>)
    ensures RunOps(d, a + b) == if RunOps(d, a).ok then RunOps(RunOps(d, a).disk, b) else RunOps(d, a)
    decreases a
  {
    if a == [] {
      assert a + b == b;
    } else if !Conflicts(d, a[0]) {
      assert (a + b)[1..] == a[1..] + b;
      RunOpsAppend(Apply(d, a[0]), a[1..], b);
    }
  }

  // ----- what a tree asks for -----

  /** Operations, and whether they cover the whole tree. */
  datatype Plan = Plan(ops: seq<Op>, whole: bool)

  function TreePlan(entries: seq<Entry>, dest: Path): Plan
    decreases entries
  {
    if entries == [] then Plan([], true)
    else
      var e := entries[0];
      if !IsSafeComponent(e.name) then Plan([], false)
      else match e.node
        case Broken => Plan([], false)
        case LostTree => Plan([Mkdir(dest + [e.name])], false)
        case Skipped => TreePlan(entries[1..], dest)
        case Blob(data) => Then([Write(dest + [e.name], data)], TreePlan(entries[1..], dest))
        case Sub(children) =>
          var inner := TreePlan(children, dest + [e.name]);
          var ops := [Mkdir(dest + [e.name])] + inner.ops;
          if inner.whole then Then(ops, TreePlan(entries[1..], dest)) else Plan(ops, false)
  }

  function Then(ops: seq<Op>, rest: Plan): Plan { Plan(ops + rest.ops, rest.whole) }

  function RunPlan(d: Disk, plan: Plan): Outcome {
    var o := RunOps(d, plan.ops);
    Outcome(o.disk, o.ok && plan.whole)
  }

  /** The tree's operations, and after all of them the sentinel. */
  function Checkout(root: seq<Entry>, note: string): seq<Op> {
    var plan := TreePlan(root, []);
    plan.ops + if plan.whole then [Write(SENTINEL, note)] else []
  }

  // ----- the checkout as it runs -----

  class Directory {
    var files: map<Path, string>
    var dirs: set<Path>

    constructor ()
      ensures State() == Disk(map[], {})
    {
      files, dirs := map[], {};
    }

    function State(): Disk
      reads this
    {
      Disk(files, dirs)
    }

    method CreateDir(p: Path) returns (ok: bool)
      modifies this
      ensures ok == !Conflicts(old(State()), Mkdir(p))
      ensures State() == if ok then Apply(old(State()), Mkdir(p)) else old(State())
    {
      ok := p !in files;
      if ok {
        dirs := dirs + {p};
      }
    }

    method WriteFile(p: Path, data: string) returns (ok: bool)
      modifies this
      ensures ok == !Conflicts(old(State()), Write(p, data))
      ensures State() == if ok then Apply(old(State()), Write(p, data)) else old(State())
    {
      ok := p !in dirs;
      if ok {
        files := files[p := data];
      }
    }

    /** Entry by entry, subtrees by recursion, stopping at the first failure. */
    method WriteTree(entries: seq<Entry>, dest: Path) returns (ok: bool)
      modifies this
      ensures Outcome(State(), ok) == RunPlan(old(State()), TreePlan(entries, dest))
      decreases entries
    {
      var i := 0;
      while i < |entries|
        invariant i <= |entries|
        invariant RunPlan(old(State()), TreePlan(entries, dest)) == RunPlan(State(), TreePlan(entries[i..], dest))
      {
        ghost var before, todo := State(), entries[i..];
        assert todo[0] == entries[i] && todo[1..] == entries[i + 1..];
        var e := entries[i];
        if !IsSafeComponent(e.name) {
          return false;
        }
        var target := dest + [e.name];
        match e.node {
          case Sub(children) =>
            ok := CreateDir(target);
            if ok {
              ghost var inner := TreePlan(children, target);
              ok := WriteTree(children, target);
              SubtreeStep(before, target, inner, TreePlan(todo[1..], dest));
            }
            if !ok {
              assert RunPlan(before, TreePlan(todo, dest)) == Outcome(State(), false) by {
                SubtreeFails(before, target, TreePlan(children, target), TreePlan(todo[1..], dest));
              }
              return false;
            }
          case Blob(data) =>
            BlobStep(before, Write(target, data), TreePlan(todo[1..], dest));
            ok := WriteFile(target, data);
            if !ok {
              return false;
            }
          case LostTree =>
            OneOp(before, Mkdir(target));
            ok := CreateDir(target);
            return false;
          case Broken => return false;
          case Skipped =>
        }
        i := i + 1;
      }
      ok := true;
    }

    method MaterializeCheckout(root: seq<Entry>, note: string) returns (ok: bool)
      modifies this
      ensures State() == RunOps(old(State()), Checkout(root, note)).disk
      ensures ok == (TreePlan(root, []).whole && RunOps(old(State()), Checkout(root, note)).ok)
    {
      ghost var before := State();
      ghost var plan := TreePlan(root, []);
      RunOpsAppend(before, plan.ops, Checkout(root, note)[|plan.ops|..]);
      assert Checkout(root, note) == plan.ops + Checkout(root, note)[|plan.ops|..];
      ok := WriteTree(root, []);
      if !ok {
        return;
      }
      assert Checkout(root, note)[|plan.ops|..] == [Write(SENTINEL, note)];
      ok := WriteFile(SENTINEL, note);
    }
  }

  lemma {:induction false} BlobStep(d: Disk, op: Op, rest: Plan)
    ensures RunPlan(d, Then([op], rest)) == if Conflicts(d, op) then Outcome(d, false) else RunPlan(Apply(d, op), rest)
  {
    assert ([op] + rest.ops)[1..] == rest.ops;
  }

  lemma {:induction false} OneOp(d: Disk, op: Op)
    ensures RunOps(d, [op]) == if Conflicts(d, op) then Outcome(d, false) else Outcome(Apply(d, op), true)
  {
    assert [op][1..] == [];
  }

  lemma {:induction false} SubtreeStep(d: Disk, target: Path, inner: Plan, rest: Plan)
    requires !Conflicts(d, Mkdir(target))
    ensures RunPlan(Apply(d, Mkdir(target)), inner).ok ==>
      RunPlan(d, Then([Mkdir(target)] + inner.ops, rest)) == RunPlan(RunPlan(Apply(d, Mkdir(target)), inner).disk, rest)
  {
    var ops := [Mkdir(target)] + inner.ops;
    RunOpsAppend(d, ops, rest.ops);
    assert ops[1..] == inner.ops;
  }

  lemma {:induction false} SubtreeFails(d: Disk, target: Path, inner: Plan, rest: Plan)
    requires !Conflicts(d, Mkdir(target)) ==> !RunPlan(Apply(d, Mkdir(target)), inner).ok
    ensures
      var ops := [Mkdir(target)] + inner.ops;
      RunPlan(d, if inner.whole then Then(ops, rest) else Plan(ops, false)) ==
        Outcome(if Conflicts(d, Mkdir(target)) then d else RunPlan(Apply(d, Mkdir(target)), inner).disk, false)
  {
    var ops := [Mkdir(target)] + inner.ops;
    RunOpsAppend(d, ops, rest.ops);
    assert ops[1..] == inner.ops;
  }

  // ----- choosing the commit -----

  datatype FetchError = CloneFailed | RefreshFailed | RefNotFound | LockCommitMismatch

  datatype Selected = Commit(sha: string) | Refused(error: FetchError)

  /** The bare repository: what the reference resolves to as cached (nothing when there is no
      clone yet) and as the remote has it (nothing when it cannot be reached). */
  datatype Repo = Repo(cached: Option<Option<string>>, remote: Option<Option<string>>)

  method SelectCommit(repo: Repo, expected: Option<string>) returns (r: Selected)
    ensures r == Selection(repo, expected)
  {
    var refreshed := repo.cached.None?;
    if refreshed && repo.remote.None? {
      return Refused(CloneFailed);
    }
    var found := if refreshed then repo.remote.value else repo.cached.value;
    if found.None? && !refreshed {
      if repo.remote.None? {
        return Refused(RefreshFailed);
      }
      found := repo.remote.value;
    }
    if found.None? {
      return Refused(RefNotFound);
    }
    var commit := found.value;
    if expected.Some? {
      if commit != expected.value && !refreshed {
        if repo.remote.None? {
          return Refused(RefreshFailed);
        }
        if repo.remote.value.None? {
          return Refused(RefNotFound);
        }
        commit := repo.remote.value.value;
      }
      if commit != expected.value {
        return Refused(LockCommitMismatch);
      }
    }
    r := Commit(commit);
  }

  /** A pinned commit is served from the cache if the cache has it, else from the remote if
      the remote has it; without a pin the cache's answer comes first. */
  function Selection(repo: Repo, expected: Option<string>): Selected {
    var cached := if repo.cached.Some? then repo.cached.value else None;
    if cached.Some? && (expected.None? || cached == expected) then Commit(cached.value)
    else match repo.remote
      case None => Refused(if repo.cached.None? then CloneFailed else RefreshFailed)
      case Some(None) => Refused(RefNotFound)
      case Some(Some(sha)) =>
        if expected.None? || sha == expected.value then Commit(sha) else Refused(LockCommitMismatch)
  }

  /** The cache has the commit asked for. */
  predicate Served(repo: Repo, expected: Option<string>, sha: string) {
    repo.cached == Some(Some(sha)) && (expected.None? || expected == Some(sha))
  }

  /** What the cache has is taken without looking at the remote; otherwise the remote decides. */
  lemma {:induction false} CacheComesFirst(repo: Repo, expected: Option<string>, sha: string)
    ensures Served(repo, expected, sha) ==> Selection(repo, expected) == Commit(sha)
    ensures (forall s :: !Served(repo, expected, s)) ==>
      (Selection(repo, expected) == Commit(sha) <==>
       repo.remote == Some(Some(sha)) && (expected.None? || expected == Some(sha)))
  {
    if repo.cached.Some? && repo.cached.value.Some? {
      assert repo.cached == Some(Some(repo.cached.value.value));
      assert Served(repo, expected, repo.cached.value.value) <==>
          expected.None? || expected == Some(repo.cached.value.value);
    }
  }

  /** Without it the fetch fails for want of a clone, of a refresh, of the reference, or of the pin. */
  lemma {:induction false} RefusedBecause(repo: Repo, expected: Option<string>)
    requires forall s :: !Served(repo, expected, s)
    ensures repo.remote.None? && repo.cached.None? <==> Selection(repo, expected) == Refused(CloneFailed)
    ensures repo.remote.None? && repo.cached.Some? <==> Selection(repo, expected) == Refused(RefreshFailed)
    ensures repo.remote == Some(None) <==> Selection(repo, expected) == Refused(RefNotFound)
    ensures (exists s :: repo.remote == Some(Some(s)) && expected.Some? && expected != Some(s)) <==>
            Selection(repo, expected) == Refused(LockCommitMismatch)
  {
    if repo.cached.Some? && repo.cached.value.Some? {
      assert repo.cached == Some(Some(repo.cached.value.value));
      assert !Served(repo, expected, repo.cached.value.value);
    }
    if repo.remote.Some? && repo.remote.value.Some? {
      assert repo.remote == Some(Some(repo.remote.value.value));
    }
  }

  /** A pin is honoured or the fetch fails; it fails for a stale cache only if the remote
      does not have the pinned commit under that reference either. */
  lemma {:induction false} PinIsHonoured(repo: Repo, expected: string)
    ensures Selection(repo, Some(expected)).Commit? ==> Selection(repo, Some(expected)) == Commit(expected)
    ensures Selection(repo, Some(expected)).Commit? <==>
      repo.cached == Some(Some(expected)) || repo.remote == Some(Some(expected))
  {
    assert repo.remote.Some? && repo.remote.value.Some? ==> repo.remote == Some(Some(repo.remote.value.value));
    assert repo.cached.Some? && repo.cached.value.Some? ==> repo.cached == Some(Some(repo.cached.value.value));
  }
}

/** Crashes and restarts of a checkout: what the sentinel's existence means. One process
    writes at a time; a write that is cut short leaves a truncated file. */
module GitCrashes {
  import opened Text
  import opened GitCheckout
  import opened GitTrees

  // ----- runs of fetches that may die at any point -----

  /** The directory, how far the fetch in progress has come, and what it will write into the
      sentinel. */
  datatype State = State(disk: Disk, pos: Option<nat>, note: string)

  datatype Step =
    | Start(note: string)   // a fetch begins, under some reference; no further if the sentinel exists
    | Proceed               // one operation, or the end of the fetch
    | Tear(kept: nat)       // dies inside a write, with part of the data in the file
    | Crash                 // dies between two operations

  const FRESH := State(Disk(map[], {}), None, "")

  function Next(root: seq<Entry>, s: State, step: Step): State {
    if step.Start? then
      if s.pos.None? && !SentinelExists(s.disk) then State(s.disk, Some(0), step.note) else s
    else Advance(Checkout(root, s.note), s, step)
  }

  /** A step of the fetch in progress. */
  function Advance(ops: seq<Op>, s: State, step: Step): State {
    match step
    case Start(_) => s
    case Crash => s.(pos := None)
    case Proceed =>
      if s.pos.None? then s
      else if s.pos.value >= |ops| || Conflicts(s.disk, ops[s.pos.value]) then s.(pos := None)
      else s.(disk := Apply(s.disk, ops[s.pos.value]), pos := Some(s.pos.value + 1))
    case Tear(kept) =>
      if s.pos.None? || s.pos.value >= |ops| || ops[s.pos.value].Mkdir? || Conflicts(s.disk, ops[s.pos.value])
      then s.(pos := None)
      else
        var op := ops[s.pos.value];
        s.(disk := Apply(s.disk, Write(op.path, op.data[..if kept <= |op.data| then kept else |op.data|])), pos := None)
  }

  function Run(root: seq<Entry>, steps: seq<Step>): State {
    if steps == [] then FRESH else Next(root, Run(root, steps[..|steps| - 1]), steps[|steps| - 1])
  }

  function ProceedAll(root: seq<Entry>, s: State, n: nat): State
    decreases n
  {
    if n == 0 then s else ProceedAll(root, Next(root, s, Proceed), n - 1)
  }

  /** Steps without a crash between them do what the checkout's methods are proved to do. */
  lemma {:induction false} UndisturbedIsRunOps(root: seq<Entry>, note: string, d: Disk, k: nat)
    requires k <= |Checkout(root, note)|
    ensures ProceedAll(root, State(d, Some(k), note), |Checkout(root, note)| - k) ==
      var o := RunOps(d, Checkout(root, note)[k..]);
      State(o.disk, if o.ok then Some(|Checkout(root, note)|) else None, note)
    decreases |Checkout(root, note)| - k
  {
    var ops := Checkout(root, note);
    if k < |ops| {
      assert ops[k..][0] == ops[k] && ops[k..][1..] == ops[k + 1..];
      if Conflicts(d, ops[k]) {
        StoppedStays(root, State(d, None, note), |ops| - k - 1);
      } else {
        UndisturbedIsRunOps(root, note, Apply(d, ops[k]), k + 1);
      }
    }
  }

  lemma {:induction false} StoppedStays(root: seq<Entry>, s: State, n: nat)
    requires s.pos.None?
    ensures ProceedAll(root, s, n) == s
  {
    if n > 0 {
      StoppedStays(root, s, n - 1);
    }
  }

  /** The cache-hit lookup: whatever is there, if the sentinel is. */
  function FetchFromCache(d: Disk): Option<map<Path, string>> {
    if SentinelExists(d) then Some(d.files - {SENTINEL}) else None
  }

  /** Apart from the sentinel, the directory holds the files of the tree and no others. */
  ghost predicate HoldsTree(files: map<Path, string>, root: seq<Entry>) {
    && Whole(root)
    && forall p :: p != SENTINEL ==> (if p in files then Some(files[p]) else None) == BlobAt(root, p)
  }

  /** In the order of writing, nothing that makes the sentinel's path exist comes before a
      file of the tree, nor at all in a tree that cannot be written in full. */
  predicate SentinelIsLast(root: seq<Entry>) {
    var ops := TreePlan(root, []).ops;
    && (forall i, j :: 0 <= i < j < |ops| && ops[i].path == SENTINEL ==> ops[j].Mkdir?)
    && (!Whole(root) ==> forall i :: 0 <= i < |ops| ==> ops[i].path != SENTINEL)
  }

  // ----- the invariant -----

  predicate WrittenBy(ops: seq<Op>, p: Path) { exists i :: 0 <= i < |ops| && ops[i].Write? && ops[i].path == p }

  predicate MadeBy(ops: seq<Op>, p: Path) { exists i :: 0 <= i < |ops| && ops[i].Mkdir? && ops[i].path == p }

  /** The first `k` tree operations have left their files. */
  predicate Done(tree: seq<Op>, k: nat, files: map<Path, string>) {
    forall j :: 0 <= j < k && j < |tree| && tree[j].Write? && tree[j].path != SENTINEL ==>
      tree[j].path in files && files[tree[j].path] == tree[j].data
  }

  predicate Marked(ops: seq<Op>, k: nat) {
    exists i :: 0 <= i < k && i < |ops| && ops[i].path == SENTINEL
  }

  ghost predicate Inv(root: seq<Entry>, s: State) {
    var tree, ops := TreePlan(root, []).ops, Checkout(root, s.note);
    && (forall p :: p in s.disk.files ==> WrittenBy(ops, p))
    && (forall p :: p in s.disk.dirs ==> MadeBy(ops, p))
    && (s.pos.Some? ==> s.pos.value <= |ops| && Done(tree, s.pos.value, s.disk.files)
                        && (SentinelExists(s.disk) ==> Marked(ops, s.pos.value)))
    && (SentinelExists(s.disk) ==> Whole(root) && Done(tree, |tree|, s.disk.files))
  }

  lemma {:induction false} RunsKeepInv(root: seq<Entry>, steps: seq<Step>)
    requires Distinct(root) && SentinelIsLast(root)
    ensures Inv(root, Run(root, steps))
    decreases |steps|
  {
    if steps != [] {
      var init := steps[..|steps| - 1];
      RunsKeepInv(root, init);
      StepKeepsInv(root, Run(root, init), steps[|steps| - 1]);
    }
  }

  lemma {:induction false} StepKeepsInv(root: seq<Entry>, s: State, step: Step)
    requires Distinct(root) && SentinelIsLast(root) && Inv(root, s)
    ensures Inv(root, Next(root, s, step))
  {
    var ops := Checkout(root, s.note);
    if step.Start? {
      SamePaths(root, s.note, step.note);
    } else if step.Proceed? && s.pos.Some? && s.pos.value < |ops| && !Conflicts(s.disk, ops[s.pos.value]) {
      ProceedKeepsInv(root, s);
    } else if step.Tear? && s.pos.Some? && s.pos.value < |ops| && ops[s.pos.value].Write?
              && !Conflicts(s.disk, ops[s.pos.value]) {
      TearKeepsInv(root, s, step.kept);
    }
  }

  /** What a fetch writes into the sentinel has no bearing on what it writes where. */
  lemma {:induction false} SamePaths(root: seq<Entry>, a: string, b: string)
    ensures forall p :: WrittenBy(Checkout(root, a), p) ==> WrittenBy(Checkout(root, b), p)
    ensures forall p :: MadeBy(Checkout(root, a), p) ==> MadeBy(Checkout(root, b), p)
  {
    var xs, ys := Checkout(root, a), Checkout(root, b);
    forall i | 0 <= i < |xs| ensures ys[i].path == xs[i].path && (ys[i].Write? <==> xs[i].Write?) {
      assert xs[i] == if i < |TreePlan(root, []).ops| then TreePlan(root, []).ops[i] else Write(SENTINEL, a);
      assert ys[i] == if i < |TreePlan(root, []).ops| then TreePlan(root, []).ops[i] else Write(SENTINEL, b);
    }
    forall p | WrittenBy(xs, p) ensures WrittenBy(ys, p) {
      var i :| 0 <= i < |xs| && xs[i].Write? && xs[i].path == p;
      assert ys[i].Write? && ys[i].path == p;
    }
    forall p | MadeBy(xs, p) ensures MadeBy(ys, p) {
      var i :| 0 <= i < |xs| && xs[i].Mkdir? && xs[i].path == p;
      assert ys[i].Mkdir? && ys[i].path == p;
    }
  }

  lemma {:induction false} ProceedKeepsInv(root: seq<Entry>, s: State)
    requires Distinct(root) && SentinelIsLast(root) && Inv(root, s)
    requires s.pos.Some? && s.pos.value < |Checkout(root, s.note)|
    requires !Conflicts(s.disk, Checkout(root, s.note)[s.pos.value])
    ensures Inv(root, Next(root, s, Proceed))
  {
    var tree, ops := TreePlan(root, []).ops, Checkout(root, s.note);
    var k := s.pos.value;
    var next := Next(root, s, Proceed);
    PlanPathsDistinct(root, []);
    PlanIsWhole(root, []);
    TouchedGrows(ops, s.disk, k, ops[k]);
    DoneGrows(tree, ops, k, k, s.disk);
    if SentinelExists(next.disk) {
      if SentinelExists(s.disk) {
        MarkedGrows(ops, k);
        DoneGrows(tree, ops, k, |tree|, s.disk);
      } else {
        assert ops[k].path == SENTINEL;
        SentinelOpCompletes(root, s.note, k, next.disk.files);
      }
    }
  }

  lemma {:induction false} DoneGrows(tree: seq<Op>, ops: seq<Op>, k: nat, n: nat, d: Disk)
    requires tree <= ops && DistinctPaths(tree) && k < |ops| && (k < |tree| || ops[k].path == SENTINEL)
    requires Done(tree, n, d.files)
    ensures Done(tree, n, Apply(d, ops[k]).files) && (n == k ==> Done(tree, k + 1, Apply(d, ops[k]).files))
  {
    assert k < |tree| ==> ops[k] == tree[k];
  }

  lemma {:induction false} MarkedGrows(ops: seq<Op>, k: nat)
    requires Marked(ops, k)
    ensures Marked(ops, k + 1)
  {
    var i :| 0 <= i < k && i < |ops| && ops[i].path == SENTINEL;
    assert ops[i].path == SENTINEL;
  }

  /** The operation that brings the sentinel about finds every file of the tree written. */
  lemma {:induction false} SentinelOpCompletes(root: seq<Entry>, note: string, k: nat, files: map<Path, string>)
    requires Distinct(root) && SentinelIsLast(root)
    requires k < |Checkout(root, note)| && Checkout(root, note)[k].path == SENTINEL
    requires Done(TreePlan(root, []).ops, k, files)
    ensures Whole(root) && Done(TreePlan(root, []).ops, |TreePlan(root, []).ops|, files)
  {
    var tree := TreePlan(root, []).ops;
    PlanIsWhole(root, []);
    if k < |tree| {
      assert tree[k].path == SENTINEL;
    }
  }

  lemma {:induction false} TouchedGrows(ops: seq<Op>, d: Disk, k: nat, op: Op)
    requires k < |ops| && op.path == ops[k].path && (op.Write? <==> ops[k].Write?)
    requires (forall p :: p in d.files ==> WrittenBy(ops, p)) && (forall p :: p in d.dirs ==> MadeBy(ops, p))
    ensures forall p :: p in Apply(d, op).files ==> WrittenBy(ops, p)
    ensures forall p :: p in Apply(d, op).dirs ==> MadeBy(ops, p)
  {
    assert ops[k].Write? ==> WrittenBy(ops, ops[k].path);
    assert ops[k].Mkdir? ==> MadeBy(ops, ops[k].path);
  }

  lemma {:induction false} TearKeepsInv(root: seq<Entry>, s: State, kept: nat)
    requires Distinct(root) && SentinelIsLast(root) && Inv(root, s)
    requires s.pos.Some? && s.pos.value < |Checkout(root, s.note)| && Checkout(root, s.note)[s.pos.value].Write?
    requires !Conflicts(s.disk, Checkout(root, s.note)[s.pos.value])
    ensures Inv(root, Next(root, s, Tear(kept)))
  {
    var tree, ops := TreePlan(root, []).ops, Checkout(root, s.note);
    var k := s.pos.value;
    var next := Next(root, s, Tear(kept));
    TouchedGrows(ops, s.disk, k, Write(ops[k].path, next.disk.files[ops[k].path]));
    assert forall j :: 0 <= j < |tree| ==> ops[j] == tree[j];
    if ops[k].path == SENTINEL {
      SentinelOpCompletes(root, s.note, k, s.disk.files);
    }
  }

  // ----- the main results -----

  /** A sentinel means the whole tree, over any sequence of crashes and restarts. */
  lemma {:induction false} SentinelMeansComplete(root: seq<Entry>, steps: seq<Step>)
    requires Distinct(root) && SentinelIsLast(root)
    requires SentinelExists(Run(root, steps).disk)
    ensures HoldsTree(Run(root, steps).disk.files, root)
  {
    var tree, ops := TreePlan(root, []).ops, Checkout(root, Run(root, steps).note);
    var files := Run(root, steps).disk.files;
    RunsKeepInv(root, steps);
    forall p | p != SENTINEL ensures (if p in files then Some(files[p]) else None) == BlobAt(root, p) {
      assert [] + p == p;
      if p in files {
        var j :| 0 <= j < |ops| && ops[j].Write? && ops[j].path == p;
        assert j < |tree| && tree[j] == Write(p, files[p]);
        WritesAreBlobs(root, [], p, files[p]);
      }
      if BlobAt(root, p).Some? {
        WritesAreBlobs(root, [], p, BlobAt(root, p).value);
        var j :| 0 <= j < |tree| && tree[j] == Write(p, BlobAt(root, p).value);
      }
    }
  }

  function Proceeds(note: string, n: nat): seq<Step> {
    if n == 0 then [Start(note)] else Proceeds(note, n - 1) + [Proceed]
  }

  /** The disk after the first `n` operations on a fresh directory. */
  ghost predicate Prefix(ops: seq<Op>, n: nat, d: Disk)
    requires n <= |ops|
  {
    && (forall p :: p in d.files <==> WrittenBy(ops[..n], p))
    && (forall p :: p in d.dirs <==> MadeBy(ops[..n], p))
  }

  /** The disk the first `n` operations leave. */
  function After(ops: seq<Op>, n: nat): Disk
    requires n <= |ops|
  {
    if n == 0 then FRESH.disk else Apply(After(ops, n - 1), ops[n - 1])
  }

  lemma {:induction false} AfterIsPrefix(ops: seq<Op>, n: nat)
    requires DistinctPaths(ops) && n <= |ops|
    ensures Prefix(ops, n, After(ops, n))
  {
    if n == 0 {
      assert ops[..0] == [];
    } else {
      AfterIsPrefix(ops, n - 1);
      PrefixGrows(ops, n, After(ops, n - 1));
    }
  }

  lemma {:induction false} NoConflictAfter(ops: seq<Op>, n: nat)
    requires DistinctPaths(ops) && 0 < n <= |ops|
    ensures !Conflicts(After(ops, n - 1), ops[n - 1])
  {
    AfterIsPrefix(ops, n - 1);
    PrefixGrows(ops, n, After(ops, n - 1));
  }

  lemma {:induction false} FirstSteps(root: seq<Entry>, note: string, n: nat)
    requires DistinctPaths(TreePlan(root, []).ops) && n <= |TreePlan(root, []).ops|
    ensures Run(root, Proceeds(note, n)) == State(After(TreePlan(root, []).ops, n), Some(n), note)
  {
    var ops, tree := Checkout(root, note), TreePlan(root, []).ops;
    if n == 0 {
      FirstStart(root, note);
    } else {
      FirstSteps(root, note, n - 1);
      RunProceeds(root, note, n);
      OneStepOn(ops, tree, note, n);
    }
  }

  lemma {:induction false} OneStepOn(ops: seq<Op>, tree: seq<Op>, note: string, n: nat)
    requires tree <= ops && DistinctPaths(tree) && 0 < n <= |tree|
    ensures Advance(ops, State(After(tree, n - 1), Some(n - 1), note), Proceed) == State(After(tree, n), Some(n), note)
  {
    NoConflictAfter(tree, n);
    assert ops[n - 1] == tree[n - 1];
  }

  lemma {:induction false} FirstStart(root: seq<Entry>, note: string)
    ensures Run(root, Proceeds(note, 0)) == State(FRESH.disk, Some(0), note)
  {
    assert [Start(note)][..0] == [];
    assert Run(root, []) == FRESH;
  }

  lemma {:induction false} RunProceeds(root: seq<Entry>, note: string, n: nat)
    requires n > 0
    ensures Run(root, Proceeds(note, n)) == Next(root, Run(root, Proceeds(note, n - 1)), Proceed)
  {
    assert Proceeds(note, n)[..|Proceeds(note, n)| - 1] == Proceeds(note, n - 1);
  }

  lemma {:induction false} PrefixGrows(ops: seq<Op>, n: nat, d: Disk)
    requires 0 < n <= |ops| && DistinctPaths(ops) && Prefix(ops, n - 1, d)
    ensures !Conflicts(d, ops[n - 1]) && Prefix(ops, n, Apply(d, ops[n - 1]))
  {
    var before, after := ops[..n - 1], ops[..n];
    var op := ops[n - 1];
    assert after == before + [op];
    forall p ensures WrittenBy(after, p) <==> WrittenBy(before, p) || (op.Write? && op.path == p) {
      if WrittenBy(before, p) {
        var i :| 0 <= i < |before| && before[i].Write? && before[i].path == p;
        assert after[i].Write? && after[i].path == p;
      }
      if op.Write? && op.path == p {
        assert after[n - 1].Write? && after[n - 1].path == p;
      }
    }
    forall p ensures MadeBy(after, p) <==> MadeBy(before, p) || (op.Mkdir? && op.path == p) {
      if MadeBy(before, p) {
        var i :| 0 <= i < |before| && before[i].Mkdir? && before[i].path == p;
        assert after[i].Mkdir? && after[i].path == p;
      }
      if op.Mkdir? && op.path == p {
        assert after[n - 1].Mkdir? && after[n - 1].path == p;
      }
    }
    assert !WrittenBy(before, op.path) && !MadeBy(before, op.path);
  }

  /** When the tree itself brings the sentinel's path about too early, a crash right after
      that leaves a partial tree that is taken for a complete one. */
  lemma {:induction false} EarlySentinelFoolsTheCache(root: seq<Entry>, note: string) returns (steps: seq<Step>)
    requires Distinct(root) && !SentinelIsLast(root)
    ensures SentinelExists(Run(root, steps).disk)
    ensures !HoldsTree(Run(root, steps).disk.files, root)
  {
    var tree := TreePlan(root, []).ops;
    if i, j :| 0 <= i < j < |tree| && tree[i].path == SENTINEL && !tree[j].Mkdir? {
      steps := CrashAfterSentinel(root, note, i);
      if Whole(root) {
        UnwrittenBlob(root, i, j, Run(root, steps).disk);
      }
    } else {
      var i :| 0 <= i < |tree| && tree[i].path == SENTINEL;
      steps := CrashAfterSentinel(root, note, i);
    }
  }

  lemma {:induction false} CrashAfterSentinel(root: seq<Entry>, note: string, i: nat) returns (steps: seq<Step>)
    requires Distinct(root) && i < |TreePlan(root, []).ops| && TreePlan(root, []).ops[i].path == SENTINEL
    ensures SentinelExists(Run(root, steps).disk)
    ensures Prefix(TreePlan(root, []).ops, i + 1, Run(root, steps).disk)
  {
    PlanPathsDistinct(root, []);
    steps := Proceeds(note, i + 1);
    FirstSteps(root, note, i + 1);
    AfterIsPrefix(TreePlan(root, []).ops, i + 1);
    SentinelAppears(TreePlan(root, []).ops, i, Run(root, steps).disk);
  }

  lemma {:induction false} UnwrittenBlob(root: seq<Entry>, i: nat, j: nat, d: Disk)
    requires Distinct(root) && Whole(root)
    requires i < j < |TreePlan(root, []).ops| && TreePlan(root, []).ops[j].Write?
    requires TreePlan(root, []).ops[i].path == SENTINEL && Prefix(TreePlan(root, []).ops, i + 1, d)
    ensures !HoldsTree(d.files, root)
  {
    var tree := TreePlan(root, []).ops;
    PlanPathsDistinct(root, []);
    var p := tree[j].path;
    assert !WrittenBy(tree[..i + 1], p);
    assert [] + p == p;
    assert Has(tree, tree[j]);
    WritesAreBlobs(root, [], p, tree[j].data);
    assert p !in d.files && BlobAt(root, p).Some? && p != SENTINEL;
  }

  lemma {:induction false} SentinelAppears(tree: seq<Op>, i: nat, d: Disk)
    requires i < |tree| && tree[i].path == SENTINEL && Prefix(tree, i + 1, d)
    ensures SentinelExists(d)
  {
    var done := tree[..i + 1];
    assert done[i].path == SENTINEL;
    assert WrittenBy(done, SENTINEL) || MadeBy(done, SENTINEL);
  }

  /** The cache never returns a partial tree if and only if the tree keeps off the
      sentinel's path until its last file. */
  lemma {:induction false} CacheIsNeverPartialExactly(root: seq<Entry>)
    requires Distinct(root)
    ensures SentinelIsLast(root) <==>
      forall steps :: FetchFromCache(Run(root, steps).disk).Some? ==>
        HoldsTree(FetchFromCache(Run(root, steps).disk).value, root)
  {
    if SentinelIsLast(root) {
      forall steps | FetchFromCache(Run(root, steps).disk).Some?
        ensures HoldsTree(FetchFromCache(Run(root, steps).disk).value, root)
      {
        SentinelMeansComplete(root, steps);
      }
    } else {
      var steps := EarlySentinelFoolsTheCache(root, "");
      assert FetchFromCache(Run(root, steps).disk).Some?;
    }
  }

  /** A subtree of that name whose object cannot be read leaves its directory behind, which is
      then taken for a finished checkout. */
  lemma {:induction false} LostSentinelTreeFoolsTheCache(root: seq<Entry>, note: string) returns (steps: seq<Step>)
    requires Distinct(root) && root != [] && root[0] == Entry(SENTINEL[0], LostTree)
    ensures FetchFromCache(Run(root, steps).disk).Some?
    ensures !HoldsTree(FetchFromCache(Run(root, steps).disk).value, root)
  {
    assert IsSafeComponent(SENTINEL[0]);
    assert [] + [SENTINEL[0]] == SENTINEL;
    assert TreePlan(root, []).ops[0].path == SENTINEL;
    steps := EarlySentinelFoolsTheCache(root, note);
  }

  /** A tree without an entry of that name at its root keeps off it. */
  lemma {:induction false} OrdinaryTreesAreSafe(root: seq<Entry>)
    requires !NamesOne(root, SENTINEL[0])
    ensures SentinelIsLast(root)
  {
    var ops := TreePlan(root, []).ops;
    PlanStaysUnder(root, []);
    forall i | 0 <= i < |ops| ensures ops[i].path != SENTINEL {
      assert NamesOne(root, ops[i].path[0]);
    }
  }

  // ----- restarting -----

  /** However the runs before were cut short, one that is not completes the checkout. */
  lemma {:induction false} RestartCompletes(root: seq<Entry>, note: string, steps: seq<Step>) returns (more: seq<Step>)
    requires Distinct(root) && Whole(root) && !NamesOne(root, SENTINEL[0])
    ensures SentinelExists(Run(root, steps + more).disk)
    ensures HoldsTree(Run(root, steps + more).disk.files, root)
  {
    var ops := Checkout(root, note);
    OrdinaryTreesAreSafe(root);
    if SentinelExists(Run(root, steps).disk) {
      more := [];
      assert steps + more == steps;
    } else {
      var all := steps + [Crash] + [Start(note)];
      assert (steps + [Crash])[..|steps|] == steps;
      assert all[..|steps| + 1] == steps + [Crash];
      var done := ProceedFrom(root, note, all, |ops|);
      more := done[|steps|..];
      assert steps + more == done;
      PlanIsWhole(root, []);
    }
    SentinelMeansComplete(root, steps + more);
  }

  lemma {:induction false} ProceedFrom(root: seq<Entry>, note: string, steps: seq<Step>, n: nat)
    returns (done: seq<Step>)
    requires Distinct(root) && Whole(root) && !NamesOne(root, SENTINEL[0]) && n <= |Checkout(root, note)|
    requires Run(root, steps).pos == Some(0) && Run(root, steps).note == note
    ensures steps <= done && Run(root, done).pos == Some(n) && Run(root, done).note == note
    ensures n == |Checkout(root, note)| ==> SentinelExists(Run(root, done).disk)
  {
    var ops := Checkout(root, note);
    PlanIsWhole(root, []);
    if n == 0 {
      done := steps;
    } else {
      var before := ProceedFrom(root, note, steps, n - 1);
      done := before + [Proceed];
      assert done[..|done| - 1] == before;
      OrdinaryTreesAreSafe(root);
      RunsKeepInv(root, before);
      NothingConflicts(root, Run(root, before), n - 1);
    }
  }

  lemma {:induction false} NothingConflicts(root: seq<Entry>, s: State, k: nat)
    requires Distinct(root) && Whole(root) && !NamesOne(root, SENTINEL[0])
    requires Inv(root, s) && k < |Checkout(root, s.note)|
    ensures !Conflicts(s.disk, Checkout(root, s.note)[k])
  {
    var tree, ops := TreePlan(root, []).ops, Checkout(root, s.note);
    PlanPathsDistinct(root, []);
    PlanStaysUnder(root, []);
    forall i | 0 <= i < |tree| ensures ops[i] == tree[i] && tree[i].path != SENTINEL {
      assert NamesOne(root, tree[i].path[0]);
    }
    assert DistinctPaths(ops);
  }
}
